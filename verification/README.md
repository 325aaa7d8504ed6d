# Verified model of the ruleset, unit-of-work, login and outbox cores

This project models the parts of the OpenDogShow backend whose correctness is not visible in any one function, and
proves what they promise. `dafny verify dfyconfig.toml` checks all of it.

| Part | Modules | What is proved |
|---|---|---|
| Ruleset resolution | `MergeById`, `LayerPrecedence`, `FeederGraph`, `EffectiveRulesets`, `LayerEditions` | merging by id is determined and associative, and later layers win; the feeder walk equals inductive reachability on any graph; `resolve` succeeds exactly on well-formed snapshots; a ruleset changes only when an edition takes effect |
| Calendar | `EcmaTime`, `LocalDates`, `ClassEligibility`, `StrictIso` | exactly the real dates are accepted; order, age and eligibility in calendar terms; the ISO parser inverts the printer and accepts nothing unreal |
| Award policy | `AwardPolicy`, `HigherScopeRules`, `MandatoryAwards`, `BreedAwards` | what each answer means in terms of the content alone; the eligible view and the validating view agree; the internal guard is unreachable; exactly when a judge can be blocked |
| Unit of work | `RollbackStore`, `RollbackRuns`, `UserRepository` | compare-and-restore rollback over every interleaving, and exactly when aborted attempts leave no trace |
| Logins | `Users`, `LoginRuns`, `LoginOutcomes`, `LoginUpdates`, `CalmLogins`, `RecurringVersions` | one account and one answer per subject always; exactly why an attempt fails, and what an undisturbed one achieves; exactly when an update replaces what its writer loaded; version counting and suspension safety when nothing throws after writing, and a run showing why that is needed |
| Role grants | `RoleGrants`, `GrantRuns`, `GrantCopies` | the version guard keeps stale copies out; recorded events rebuild the stored grants exactly |
| Outbox dispatch | `Outbox`, `DispatchProtocol`, `PollingDispatcher` | N workers with crashes and lost connections; one dispatcher drains the table |

`RulesetModel` holds the ruleset's data, `Wrappers` the Option and Result types.

## How the protocols are modelled

- **Unit of work.** Attempts interleave at every `await`; a run is any sequence of begin, put, commit and abort events.
  Every write stores a fresh instance, named by its place in the log of all writes, and instances are compared by
  identity, as the reference comparison in the code does. Each repository call is one step, which allows every
  interleaving of the code and some more.
- **Logins.** A world holds the store, the account of each instance, where each attempt stands, and which subject each
  generated id was minted for. Each registration stores an instance of its own. A throw may happen at any point before an
  attempt has answered, also after its write. Generated ids are distinct, because `addUser` checks the subject and not the
  id.
- **Role grants.** An attempt holds copies of the roots it has loaded, commands them and saves them in any order, several
  times, and interleaved with other attempts. No attempt reads a root while another running attempt's write is stored
  there; what may be written is left to the version guard.
- **Dispatchers.** A state holds the table, the row locks and each worker's phase. The lock goes with the transaction,
  before the failed attempt is recorded. A commit may be applied and still be reported as failed; a connection may be
  lost while the handler runs, in which case the worker no longer holds the row; the lock of a dead client stays until
  the server ends its transaction. A selection may take any eligible unlocked row, because what is lowest depends on
  what other transactions have yet to commit; the single dispatcher takes the lowest.
- **Handlers, certificates, grades, ids, claims normalisation** are parameters or abstract values. The claims
  normaliser and its blank test are arbitrary functions.

## Where the code and its documentation differ

The model follows the code.

- Two comments ask for a higher-scope award's minimum grade on every reachable scale (`effective-ruleset.ts:107-111`,
  `:264-271`). The code asks for some reachable scale, or none reachable (`:361-365`).
- Best of Breed and Best Opposite Sex are documented to go to dogs of opposite sexes (`fci-award-policy.ts:324-328`). The
  code compares sexes only when a proposal has exactly two breed assignments (`:347`), so three assignments to males are
  accepted (`BreedAwards.OneSexAccepted`).
- `LocalDate.of` documents any integer year (`local-date.ts:112`). Years 0 to 99 are refused, because `Date.UTC` moves
  them to 1900..1999, and so are dates outside the ECMAScript time range.

## What does not hold, and when it does

- Aborted attempts leaving no trace: false in general (`RollbackRuns.AbortedValueReturns`); true if and only if no abort
  restores a value whose writer has aborted (`AtomicIffClean`), for which not overwriting a running attempt's value is
  enough.
- An update that goes through replacing what its writer loaded: false after a throw that follows a write, because a version number can
  recur (`RecurringVersions.LoginUndoesSuspension`); true if and only if no rollback has taken the loaded instance away
  since it was read (`LoginUpdates.UpdateReplacesLoadedIff`), hence always in runs without such a throw.
- A mandatory award never blocking a judge: false when one dog carries two grades (`MandatoryAwards.TwoGradesBlock`) or two
  sex tags (`BreedAwards.ConflictingTagsBlock`); at group and show scope a legal proposal exists if and only if every
  mandatory eligible award has an acceptable dog (`MandatoryAwards.ProposalExistsIff`), and at breed scope if and only if
  the pair is not eligible, has an acceptable dog of each sex, or has three (`BreedAwards.BreedProposalExistsIff`).

## Model

| member | source | states |
|---|---|---|
| `MergeById.MergeItems` | src/rulesets/domain/model/effective-ruleset/effective-ruleset.ts:244-250 | the loop returns the one list that covers every id, carries each id's last item, and orders ids by first occurrence |
| `MergeById.MergedIsMerge` | src/rulesets/domain/model/effective-ruleset/effective-ruleset.ts:244-250 | the fold of `Map.set` meets "first-occurrence order, last-occurrence value" and has unique ids |
| `MergeById.MergeUnique` | src/rulesets/domain/model/effective-ruleset/effective-ruleset.ts:244-250 | those clauses leave exactly one possible result |
| `MergeById.MergeAssociative` | src/rulesets/domain/model/effective-ruleset/effective-ruleset.ts:186-195 | layering is associative: merging a merged prefix or a merged suffix with the rest equals merging everything at once |
| `MergeById.FindSpec` | src/rulesets/domain/model/effective-ruleset/effective-ruleset.ts:214-226 | the linear `find` returns the first item with the id, or nothing when there is none |
| `MergeById.LookupsAgree` | src/rulesets/domain/model/effective-ruleset/effective-ruleset.ts:214-226 | on a list with unique ids the linear lookup and the keyed map agree for every id |
| `FeederGraph.GroupClassesByAwardTypeId` | src/rulesets/domain/model/effective-ruleset/effective-ruleset.ts:338-353 | the nested loop groups exactly the classes naming each award, in order and with repeats, and holds no empty group |
| `FeederGraph.NamingContents` | src/rulesets/domain/model/effective-ruleset/effective-ruleset.ts:338-353 | a class is in an award's group exactly when it is listed and names the award |
| `FeederGraph.ReachableGradeScaleIds` | src/rulesets/domain/model/effective-ruleset/effective-ruleset.ts:406-419 | terminates on any feeder graph, cyclic or dangling, and leaves the shared visited set closed over what it added; the scales returned are exactly those contributed directly by the awards it added, none for a revisited award |
| `FeederGraph.AddReachableGradeScaleIds` | src/rulesets/domain/model/effective-ruleset/effective-ruleset.ts:422-442 | one feeder adds its own scales and those of a walk of the award it names, under the same shared visited set |
| `FeederGraph.WalkIsReachability` | src/rulesets/domain/model/effective-ruleset/effective-ruleset.ts:406-442 | a walk started with nothing visited returns exactly the scales reachable through `fedBy`, reachability being the inductive closure of the edge relation |
| `FeederGraph.ReachableIffBrought` | src/rulesets/domain/model/effective-ruleset/effective-ruleset.ts:422-442 | an award reaches exactly the scales its feeders bring: a fed class's, those of classes naming a fed award, and those a fed higher-scope award reaches |
| `EffectiveRulesets.ValidateReferences` | src/rulesets/domain/model/effective-ruleset/effective-ruleset.ts:272-286 | the validator's loops report exactly the first broken reference in the order the code looks |
| `EffectiveRulesets.ValidateClass` | src/rulesets/domain/model/effective-ruleset/effective-ruleset.ts:289-322 | a class's scale, then each of its awards in order: known, and its minimum grade on the class's scale |
| `EffectiveRulesets.ValidateHigherScopeMinimumGrades` | src/rulesets/domain/model/effective-ruleset/effective-ruleset.ts:373-386 | the first higher-scope award whose minimum grade is on none of its reachable scales, if it has any |
| `EffectiveRulesets.ValidateOneHigherScopeMinimumGrade` | src/rulesets/domain/model/effective-ruleset/effective-ruleset.ts:356-371 | the walk's answer agrees with reachability for one award |
| `EffectiveRulesets.NoErrorIffWellFormed` | src/rulesets/domain/model/effective-ruleset/effective-ruleset.ts:272-386 | no error is reported exactly when the snapshot is well formed, stated by reachability and lookups alone |
| `EffectiveRulesets.ErrorIsViolation` | src/rulesets/domain/model/effective-ruleset/effective-ruleset.ts:272-386 | every error names a reference of the snapshot that really is broken |
| `EffectiveRulesets.Resolve` | src/rulesets/domain/model/effective-ruleset/effective-ruleset.ts:181-211 | the method answers with exactly the resolution that the two lemmas below describe |
| `LayerPrecedence.MergedIsLayered` | src/rulesets/domain/model/effective-ruleset/effective-ruleset.ts:186-195 | merging the layers' concatenated lists keeps, for each id, its last item of the last layer that has it, and orders ids by layer and position of first appearance |
| `EffectiveRulesets.ResolveIffWellFormed` | src/rulesets/domain/model/effective-ruleset/effective-ruleset.ts:181-211 | `resolve` succeeds if and only if the snapshot that layers the editions' own four collections, last edition winning id by id, is well formed; it then answers with that snapshot and each edition's layer and date in order, with unique ids; a failure names a broken reference |
| `EffectiveRulesets.ErrorIsFirst` | src/rulesets/domain/model/effective-ruleset/effective-ruleset.ts:272-386 | the error is that of the first class that is not well formed, or else of the first higher-scope award whose minimum grade does not resolve |
| `EffectiveRulesets.OneReachableScaleIsEnough` | src/rulesets/domain/model/effective-ruleset/effective-ruleset.ts:363-365 | an accepted snapshot whose award's minimum grade is missing from one reachable scale: the code asks for some scale, not every |
| `LayerEditions.LatestInForce` | src/rulesets/domain/model/ruleset-layer-edition/ruleset-layer-edition.ts:77-91 | the loop finds an in-force edition of the layer that none is later than, the last listed among equals, or nothing when none is in force |
| `LayerEditions.LatestUnique` | src/rulesets/domain/model/ruleset-layer-edition/ruleset-layer-edition.ts:77-91 | that description leaves one answer |
| `LayerEditions.ResolveEffectiveRuleset` | src/rulesets/domain/service/resolve-effective-ruleset.ts:52-68 | answers with the layered, well-formed collections of each layer's latest edition in force, in layer order; or with a broken reference of theirs; or with the first layer that has none in force |
| `LayerEditions.SelectionUnique` | src/rulesets/domain/service/resolve-effective-ruleset.ts:59-66 | the choice of editions is determined by the date |
| `LayerEditions.SameRulesBetweenEditions` | src/rulesets/domain/service/resolve-effective-ruleset.ts:59-67 | two show dates with no listed layer's edition taking effect in between resolve to the same collections and source editions, or fail alike |
| `EcmaTime.CivilOfDayNumber` | src/rulesets/domain/model/effective-ruleset/value-objects/local-date.ts:81-85 | year, month and date of a day number undo the day number, for every real date (section 21.4.1 of ECMA-262) |
| `EcmaTime.DayNumberOfCivil` | src/rulesets/domain/model/effective-ruleset/value-objects/local-date.ts:81-85 | every day number has exactly one real date, in every year |
| `EcmaTime.DaysFollowCalendar` | src/rulesets/domain/model/effective-ruleset/value-objects/local-date.ts:81-85 | consecutive day numbers are consecutive calendar days, starting at 1 January 1970 |
| `EcmaTime.DayNumberOrder` | src/rulesets/domain/model/effective-ruleset/value-objects/local-date.ts:122-134 | day-number order is lexicographic order of year, month, day |
| `EcmaTime.MakeDayDefinition` | src/rulesets/domain/model/effective-ruleset/value-objects/local-date.ts:73-85 | MakeDay with any integer month and date is the day number of the first of the normalised month, plus the date less one |
| `LocalDates.OfAcceptsExactly` | src/rulesets/domain/model/effective-ruleset/value-objects/local-date.ts:72-119 | accepts exactly the real Gregorian dates in the ECMAScript time range outside years 0..99, for any finite, fractional or non-finite input, and the getters give back the inputs |
| `LocalDates.OrderIsLexicographic` | src/rulesets/domain/model/effective-ruleset/value-objects/local-date.ts:122-134 | `isOnOrBefore` is lexicographic order of year, month, day, and equality is equality of the three |
| `LocalDates.AgeIsLargestShift` | src/rulesets/domain/model/effective-ruleset/value-objects/local-date.ts:146-152 | the age is the k such that shifting the birth date by j months, day kept nominal, is on or before this date exactly when j <= k; it never trips the age check; a date before the reference is refused |
| `LocalDates.AgeIsMonotone` | src/rulesets/domain/model/effective-ruleset/value-objects/local-date.ts:146-152 | a later show date never lowers the age |
| `ClassEligibility.EligibleExactly` | src/rulesets/domain/service/fci/fci-class-eligibility-policy.ts:39-72 | eligibility in calendar terms: an error before the birth date, then the two age bounds as dates reached, the certificates and the bred-by-exhibitor rule |
| `ClassEligibility.EligibleDatesAreAnInterval` | src/rulesets/domain/service/fci/fci-class-eligibility-policy.ts:39-72 | the show dates on which a dog may enter a class form one unbroken interval |
| `StrictIso.AcceptsExactlyRealTimes` | src/Shared/infrastructure/messaging/domain-event-rehydration-registry.ts:120-177 | accepts exactly the strings of its shape that write a real UTC date and time in years 0100..9999, and returns that instant: no rollover of day, hour 24 or second 60 |
| `StrictIso.ParseUndoesPrint` | src/Shared/infrastructure/messaging/domain-event-rehydration-registry.ts:168-177 | undoes `toISOString` for every instant in years 0100..9999 and refuses every other instant of the time range |
| `StrictIso.PrintUndoesParse` | src/Shared/infrastructure/messaging/domain-event-rehydration-registry.ts:168-177 | an accepted text with milliseconds is exactly what its instant is printed as |
| `StrictIso.AcceptsExactlyPrinted` | src/Shared/infrastructure/messaging/domain-event-rehydration-registry.ts:120-177 | a text is accepted as an instant if and only if it is what the instant is printed as, or that without milliseconds at a whole second, in years 0100..9999 |
| `StrictIso.PrintedComponents` | src/Shared/infrastructure/persistence/postgres/pg-outbox-writer.ts:71 | the printed form of an instant has the parser's shape and exactly its calendar and clock fields |
| `AwardPolicy.PerSexEligible` | src/rulesets/domain/service/fci/fci-award-policy.ts:119-140 | on a resolved snapshot the list holds, once each and in the order they first pass, exactly the awards some placement deserves: its class names the award, its grade on the class's scale is no worse than the minimum, and it is placed well enough |
| `AwardPolicy.ValidatePerSex` | src/rulesets/domain/service/fci/fci-award-policy.ts:142-223 | on a resolved snapshot accepts exactly when every chosen dog deserves its award by its first placement; otherwise answers with the first assignment that fails |
| `AwardPolicy.PassesExactly` | src/rulesets/domain/service/fci/meets-award-requirements.ts:39-92 | one placement passes exactly when the dog deserves the award, stated by listed classes, awards, scales, grades and ordinals only |
| `AwardPolicy.AcceptedExactly` | src/rulesets/domain/service/fci/fci-award-policy.ts:177-223 | one assignment passes exactly when the dog deserves the award by its first placement |
| `AwardPolicy.GuardUnreachable` | src/rulesets/domain/service/fci/meets-award-requirements.ts:25-37 | on a resolved snapshot the "Invariant violated" throw is unreachable for any placement and award |
| `AwardPolicy.GuardUnreachableInProposals` | src/rulesets/domain/service/fci/fci-award-policy.ts:207-223 | nor is it reachable from a proposal |
| `AwardPolicy.AcceptedAtFirstPlacement` | src/rulesets/domain/service/fci/fci-award-policy.ts:177-223 | a single-assignment proposal is accepted exactly when the award qualifies at some dog's first placement |
| `AwardPolicy.PerSexViewsAgree` | src/rulesets/domain/service/fci/fci-award-policy.ts:119-221 | when each dog has one placement, an award is eligible exactly when some single-assignment proposal of it is accepted |
| `AwardPolicy.HigherScopeEligible` | src/rulesets/domain/service/fci/fci-award-policy.ts:227-238 | collects, once each and in the order of the awards, exactly the eligible awards of the scope |
| `AwardPolicy.ValidateHigherScope` | src/rulesets/domain/service/fci/fci-award-policy.ts:240-261 | the three passes accept exactly the proposals whose assignments are all legal, keep the breed rules, and name every mandatory eligible award |
| `HigherScopeRules.MeetsMinimumExactly` | src/rulesets/domain/service/fci/grade-comparison.ts:32-45 | a grade meets a minimum exactly when, on the first scale that has both, its ordinal is no greater |
| `HigherScopeRules.EligibleExactly` | src/rulesets/domain/service/fci/fci-award-policy.ts:396-454 | an award is eligible exactly when some stream of one of its feeders carries a dog good enough, at breed scope one stream tagged male and one tagged female |
| `HigherScopeRules.LegalExactly` | src/rulesets/domain/service/fci/fci-award-policy.ts:270-327 | an assignment is legal exactly when the award is listed at that scope and the dog's first candidacy among its feeder streams is good enough |
| `HigherScopeRules.SexIsOfFirst` | src/rulesets/domain/service/fci/fci-award-policy.ts:363-365 | the dog's sex is the tag of the first stream that carries it |
| `MandatoryAwards.ProposalExistsIff` | src/rulesets/domain/service/fci/fci-award-policy.ts:240-389 | at group and show scope a legal proposal exists if and only if every mandatory eligible award has a dog whose first candidacy meets its minimum |
| `MandatoryAwards.NeverBlocked` | src/rulesets/domain/service/fci/fci-award-policy.ts:372-418 | with one grade per dog a legal proposal always exists at group and show scope |
| `MandatoryAwards.HigherScopeViewsAgree` | src/rulesets/domain/service/fci/fci-award-policy.ts:294-327 | at group and show scope an award is eligible exactly when some dog may be proposed for it |
| `MandatoryAwards.TwoGradesBlock` | src/rulesets/domain/service/fci/fci-award-policy.ts:449-468 | a dog listed twice with different grades: a resolved snapshot and streams for which no proposal is legal |
| `BreedAwards.AcceptedAtBreedIff` | src/rulesets/domain/service/fci/fci-award-policy.ts:240-389 | a breed proposal is accepted if and only if its assignments are legal, its dogs are distinct, nothing owed is missing and, only when it has exactly two assignments, the two dogs have opposite sex tags |
| `BreedAwards.BreedProposalExistsIff` | src/rulesets/domain/service/fci/fci-award-policy.ts:240-418 | for a mandatory pair over the same feeders and minimum grade, a legal breed proposal exists if and only if the pair is not eligible, or has an acceptable dog of each sex tag, or has three acceptable dogs |
| `BreedAwards.NeverBlockedAtBreed` | src/rulesets/domain/service/fci/fci-award-policy.ts:329-418 | so with one grade and one sex tag per dog a legal proposal always exists at breed scope |
| `BreedAwards.ConflictingTagsBlock` | src/rulesets/domain/service/fci/fci-award-policy.ts:363-418 | one dog tagged male in one stream and female in another: a resolved snapshot and streams for which no breed proposal is legal |
| `BreedAwards.ThreeDogsAccepted` | src/rulesets/domain/service/fci/fci-award-policy.ts:347-355 | any three acceptable dogs, of any sex, make a legal breed proposal |
| `BreedAwards.OneSexAccepted` | src/rulesets/domain/service/fci/fci-award-policy.ts:324-357 | Best of Breed and Best Opposite Sex all to males, in three assignments, is accepted |
| `BreedAwards.BreedViewsAgree` | src/rulesets/domain/service/fci/fci-award-policy.ts:396-418 | with one grade and one sex tag per dog a breed award is eligible exactly when it has an acceptable dog of each sex tag |
| `BreedAwards.LegalIffAcceptable` | src/rulesets/domain/service/fci/fci-award-policy.ts:294-322 | the acceptable dogs are exactly those that may be proposed |
| `BreedAwards.SexOfDog` | src/rulesets/domain/service/fci/fci-award-policy.ts:363-365 | with one sex tag per dog the first stream carrying it gives the tag of any stream carrying it |
| `RollbackStore.RollbackTrackedMap.Rollback` | src/sample/infrastructure/persistence/inmemory/fake-sample-unit-of-work.ts:68-74 | the loop restores exactly the keys whose value is still the attempt's own, whatever the order of keys |
| `RollbackRuns.InvReached` | src/iam/infrastructure/persistence/inmemory/fake-iam-unit-of-work.ts:40-57 | in every interleaving: every write after the committed one is aborted, and between what an attempt remembers and what it wrote lie only its own and aborted writes |
| `RollbackRuns.RollbackTouchesOwnWrites` | src/iam/infrastructure/persistence/inmemory/fake-iam-unit-of-work.ts:51-57 | in every interleaving a rollback alters a key only if its own last write is there, and never creates a key |
| `RollbackRuns.FinishedValueStays` | src/iam/infrastructure/persistence/inmemory/fake-iam-unit-of-work.ts:51-57 | a value left by a finished successful attempt stays, through any rollbacks, until someone writes the key |
| `RollbackRuns.AtomicIffClean` | src/iam/infrastructure/persistence/inmemory/fake-iam-unit-of-work.ts:235-263 | the map always equals the replay of the writes of non-aborted attempts if and only if no abort restores a value whose writer has aborted |
| `RollbackRuns.ConsiderateRunsAreAtomic` | src/sample/infrastructure/persistence/inmemory/fake-sample-unit-of-work.ts:314-341 | that holds in every interleaving where no attempt overwrites a value of a still-running one on the same key |
| `RollbackRuns.AbortedValueReturns` | src/iam/infrastructure/persistence/inmemory/fake-iam-unit-of-work.ts:51-57 | A writes, B overwrites, A aborts, B aborts: the aborted value is back |
| `UserRepository.UsersPort.FindByExternalSubject` | src/iam/infrastructure/persistence/inmemory/fake-iam-unit-of-work.ts:117-122 | the loop finds a stored account with the subject exactly when there is one |
| `UserRepository.UsersPort.Add` | src/iam/infrastructure/persistence/inmemory/fake-iam-unit-of-work.ts:124-133 | refused exactly when the subject is taken; otherwise stores the caller's own instance and tracks what it replaced |
| `UserRepository.UsersPort.Update` | src/iam/infrastructure/persistence/inmemory/fake-iam-unit-of-work.ts:135-151 | refused exactly when the stored version is not the incoming one; otherwise stores a fresh instance at the next version |
| `Users.RegisterExactly` | src/iam/domain/model/user/user.ts:189-198 | refused exactly when the subject or the canonical email is blank; otherwise an Active account at version 1 with the canonical name and email |
| `Users.LogInKeeps` | src/iam/domain/model/user/user.ts:284-294 | succeeds exactly for an Active account; keeps id, status, subject and version, and takes the claims' canonical name and email unless blank |
| `Users.WithStatusExactly` | src/iam/domain/model/user/user.ts:239-253 | flips the status and nothing else, refused exactly when it is already held |
| `LoginRuns.WorldInvReached` | src/iam/infrastructure/persistence/inmemory/fake-iam-unit-of-work.ts:117-151 | that invariant holds after every interleaving of logins and status changes, aborts at any point included |
| `LoginRuns.OneAccountPerSubject` | src/iam/infrastructure/persistence/inmemory/fake-iam-unit-of-work.ts:124-133 | in every interleaving, aborts included, at most one stored account has a given subject |
| `LoginRuns.OneAnswerPerSubject` | src/iam/application/authenticate/authenticate.ts:85-142 | in every interleaving, aborts included, all ok answers for one `sub` carry the same user id |
| `LoginOutcomes.ThrowsExactly` | src/iam/application/authenticate/authenticate.ts:85-142 | in every possible run a step makes an attempt fail if and only if: it throws by itself; its claims are blank, its account is Suspended or its status change is refused; the stored version differs or the row is gone; or it re-reads after a lost race, or reads by id, and finds none |
| `LoginOutcomes.KnownSubjectLogsIn` | src/iam/application/authenticate/authenticate.ts:113-142 | an undisturbed login with the subject of an Active account refreshes that account and answers ok with its id |
| `LoginOutcomes.RaceLoserLogsIn` | src/iam/application/authenticate/authenticate.ts:118-129 | a first login that finds its subject taken re-reads and logs in as the winner's account |
| `LoginOutcomes.UnknownSubjectRegisters` | src/iam/application/authenticate/authenticate.ts:113-122 | an undisturbed first login with valid claims stores the new account and answers ok with its id |
| `LoginOutcomes.StatusChanges` | src/iam/domain/model/user/user.ts:239-253 | an undisturbed suspension or reactivation of an account of the other status goes through |
| `LoginUpdates.ChainRises` | src/iam/infrastructure/persistence/inmemory/fake-iam-unit-of-work.ts:140-148 | versions strictly rise along the instances a stored account was built on |
| `LoginUpdates.UpdateReplacesLoadedIff` | src/iam/infrastructure/persistence/inmemory/fake-iam-unit-of-work.ts:135-151 | in every interleaving, aborts included: an update goes through exactly when the aggregate allows it and the stored version is the loaded one; it then replaces exactly the instance its writer had loaded if and only if no rollback has taken that instance away; a login finds and leaves it Active, a status change flips it |
| `CalmLogins.EveryUpdateReplacesLoaded` | src/iam/infrastructure/persistence/inmemory/fake-iam-unit-of-work.ts:107-115 | when no attempt throws after writing, every update that goes through replaces what its writer had loaded |
| `CalmLogins.VersionsCountWrites` | src/iam/domain/model/user/user.ts:224-294 | in such runs the stored account is the last written, its version is the number of its writes, and each write follows from the one stored before it: logins from Active to Active, so none undoes a suspension |
| `CalmLogins.FailedWritesNothing` | src/iam/application/authenticate/authenticate.ts:90-101 | in such runs every write belongs to an attempt that answers ok: a failed login writes nothing |
| `RecurringVersions.LoginUndoesSuspension` | src/iam/infrastructure/persistence/inmemory/fake-iam-unit-of-work.ts:107-115 | for any account there is a run, with one throw after a write, in which a version recurs and a stale login makes a Suspended account Active |
| `DispatchProtocol.InvReached` | src/Shared/infrastructure/messaging/pg-polling-dispatcher.ts:170-293 | in every run of any set of workers, crashes, lost connections and failed recordings included: locks and transactions correspond, held rows are undispatched, attempts made plus attempts to come stay within budget |
| `DispatchProtocol.OneHolderPerRow` | src/Shared/infrastructure/messaging/pg-polling-dispatcher.ts:212-223 | at most one worker is inside the transaction of a row, so at most one connected worker runs its handler |
| `DispatchProtocol.HeldRowIsIsolated` | src/Shared/infrastructure/messaging/pg-polling-dispatcher.ts:212-249 | while a worker is inside the transaction of a row, only its own commit changes the row |
| `DispatchProtocol.AttemptsAreBounded` | src/Shared/infrastructure/messaging/pg-polling-dispatcher.ts:260-293 | `attempts` never exceeds `maxAttempts + N - 1`; `maxAttempts` for one worker |
| `DispatchProtocol.BoundIsReached` | src/Shared/infrastructure/messaging/pg-polling-dispatcher.ts:46-53 | the bound is exact: any N workers have a run that reaches it |
| `DispatchProtocol.DispatchedIsFinal` | src/Shared/infrastructure/messaging/pg-polling-dispatcher.ts:212-223 | a dispatched row is never selected again, never held and never committed again |
| `DispatchProtocol.DispatchedIsDelivered` | src/Shared/infrastructure/persistence/postgres/with-transaction.ts:63-93 | `dispatched_at` is set only by a commit of a worker whose handler returned normally earlier in the same transaction, which held the row throughout |
| `PollingDispatcher.Dispatcher.SelectNextRow` | src/Shared/infrastructure/messaging/pg-polling-dispatcher.ts:212-223 | the lowest eligible row, or none exactly when none is eligible |
| `PollingDispatcher.Dispatcher.ProcessOne` | src/Shared/infrastructure/messaging/pg-polling-dispatcher.ts:170-201 | selects the lowest eligible row, calls the handler once, and settles the table by how the call ends |
| `PollingDispatcher.Dispatcher.Poll` | src/Shared/infrastructure/messaging/pg-polling-dispatcher.ts:126-141 | handlers run for the lowest eligible rows in strictly increasing `seq`, none passed over, up to the batch size or first failure; the table afterwards, the count of dispatched and quarantined rows and the failure are as promised |
| `PollingDispatcher.PollCounts` | src/Shared/infrastructure/messaging/pg-polling-dispatcher.ts:126-158 | after a completed poll the dispatched rows have grown by its count, and dispatched, eligible and the reported quarantined rows add up to the table |
| `PollingDispatcher.SelectionLowers` | src/Shared/infrastructure/messaging/pg-polling-dispatcher.ts:170-201 | the sum over eligible rows of the attempts left falls at every selection whose failure is recorded |
| `PollingDispatcher.PollLowers` | src/Shared/infrastructure/messaging/pg-polling-dispatcher.ts:126-141 | a poll lowers that sum by at least the number of handler calls, and calls none only on a drained table |
| `PollingDispatcher.PollsDrain` | src/Shared/infrastructure/messaging/pg-polling-dispatcher.ts:126-223 | after as many polls as attempts were left, every row is dispatched or quarantined and no row is lost |
| `PollingDispatcher.DrainedPoll` | src/Shared/infrastructure/messaging/pg-polling-dispatcher.ts:148-158 | a poll of a drained table changes nothing and counts exactly the undispatched rows as quarantined |
| `PollingDispatcher.PollKeepsWithinMax` | src/Shared/infrastructure/messaging/pg-polling-dispatcher.ts:260-293 | with one dispatcher no row's attempts pass the maximum |
| `PollingDispatcher.DispatchIsARun` | src/Shared/infrastructure/messaging/pg-polling-dispatcher.ts:170-293 | each way one row's processing can end is a run of the worker protocol, from any state with no locks |
| `PollingDispatcher.FailedCommitIsARun` | src/Shared/infrastructure/persistence/postgres/with-transaction.ts:87-93 | a commit that fails with nothing applied settles the row as a failing handler does |
| `PollingDispatcher.CrashIsUndone` | src/Shared/infrastructure/persistence/postgres/with-transaction.ts:63-93 | a worker that crashes inside its transaction leaves the table as it was, and the row free once its lock is ended |
| `PollingDispatcher.LostConnectionIsUndone` | src/Shared/infrastructure/persistence/postgres/with-transaction.ts:76-85 | so does a worker whose connection is lost while its handler runs |
| `PollingDispatcher.LostWorkerCannotWrite` | src/Shared/infrastructure/persistence/postgres/with-transaction.ts:76-93 | after that it can neither commit nor record an attempt |
| `RoleGrants.UserRoleGrants.Rehydrate` | src/iam/domain/model/user-role-grants/user-role-grants.ts:140-148 | construction from storage is refused exactly when a grant is listed twice |
| `RoleGrants.UserRoleGrants.GrantRole` | src/iam/domain/model/user-role-grants/user-role-grants.ts:118-129 | refused, changing and recording nothing, exactly when the grant is held; otherwise the grant goes after the others and its fact is recorded |
| `RoleGrants.UserRoleGrants.RevokeRole` | src/iam/domain/model/user-role-grants/user-role-grants.ts:106-116 | cuts the grant out where it stands, the others kept in order, and records that; does nothing when it is not held |
| `RoleGrants.ReplayHolds` | src/iam/domain/model/user-role-grants/user-role-grants.ts:106-129 | after any facts a grant is held exactly when the last fact about it is a RoleGranted, or there is none and it was held before |
| `RoleGrants.ReplayConcat` | src/iam/domain/model/user-role-grants/user-role-grants.ts:106-129 | replaying two stretches of facts is replaying one after the other |
| `RoleGrants.ReplayedIsDuplicateFree` | src/iam/domain/model/user-role-grants/user-role-grants.ts:118-148 | whatever commands are issued, replaying the facts they record stays free of duplicates |
| `RoleGrants.RunningAttempt.FindByUser` | src/iam/infrastructure/persistence/inmemory/fake-iam-unit-of-work.ts:168-179 | a fresh copy of the stored root, or an empty root at version 0 |
| `RoleGrants.RunningAttempt.Add` | src/iam/infrastructure/persistence/inmemory/fake-iam-unit-of-work.ts:181-198 | refused exactly when a root is stored; otherwise stores a fresh version 1 and takes the root's facts |
| `RoleGrants.RunningAttempt.Update` | src/iam/infrastructure/persistence/inmemory/fake-iam-unit-of-work.ts:200-222 | refused exactly when the stored version is not the root's; otherwise stores a fresh next version and takes the root's facts |
| `RoleGrants.RunningAttempt.Fail` | src/iam/infrastructure/persistence/inmemory/fake-iam-unit-of-work.ts:258-262 | the attempt's writes are undone where they still stand |
| `GrantCopies.AllInvReached` | src/iam/infrastructure/persistence/inmemory/fake-iam-unit-of-work.ts:162-262 | in every interleaving that reads no root another running attempt has written: a copy is never ahead of the stored root, equal versions mean the same instance, and a running attempt's pending facts lead from what the recorded events rebuild to what it stored |
| `GrantCopies.SaveReplacesLoaded` | src/iam/infrastructure/persistence/inmemory/fake-iam-unit-of-work.ts:181-222 | in those runs a save goes through only over the very instance its copy was loaded from, and once; a stale save is refused, so no grant or revoke is lost |
| `GrantCopies.SavesExactly` | src/iam/infrastructure/persistence/inmemory/fake-iam-unit-of-work.ts:181-222 | in those runs `add` goes through exactly when no root is stored, `update` exactly when the stored root is the one loaded; it stores the copy's grants at the next version and takes its facts |
| `GrantCopies.LastEventDecides` | src/iam/domain/model/user-role-grants/user-role-grants.ts:106-129 | in those runs a user holds a grant exactly when the last recorded event about the two is a RoleGranted |
| `GrantCopies.SuccessRecords` | src/iam/infrastructure/persistence/inmemory/fake-iam-unit-of-work.ts:253-257 | when an attempt succeeds the recorded events grow by exactly the facts of its saves, in order |
| `GrantCopies.UndisturbedGrant` | src/iam/infrastructure/persistence/inmemory/fake-iam-unit-of-work.ts:162-257 | an undisturbed attempt that loads, grants and saves leaves the grant last and its event recorded last |
| `GrantCopies.UndisturbedFailure` | src/iam/infrastructure/persistence/inmemory/fake-iam-unit-of-work.ts:258-262 | the same attempt failing after its save leaves the stored root and the events as before |
| `GrantCopies.RecordedEventsRebuildGrants` | src/iam/domain/model/user-role-grants/user-role-grants.ts:106-148 | in those runs replaying a user's recorded events from the empty list rebuilds exactly the stored grants, order included, duplicate-free; every recorded event is of an attempt that succeeded |

## Left out

- LocalDates.OfAcceptsExactly: numbers are exact reals, or not finite; loss of precision beyond 2^53 and negative zero are not modelled.
- BreedAwards.BreedProposalExistsIff: is about breed awards that are a mandatory pair with the same feeders and minimum grade, the shape of the FCI content (`fci-shared-content.ts:141-165`); other lists of breed awards are not covered.
- EffectiveRulesets.ErrorIsViolation: errors carry the broken ids, not the list of reachable scales or a message text.
- DispatchProtocol.OneHolderPerRow: a handler still running on a lost connection is not counted as holding the row.
- PollingDispatcher.Dispatcher.ProcessOne: a fault before a row is selected, which changes nothing and is not a dispatch failure, is left out.
- PollingDispatcher.PollsDrain: needs every failure to be recorded, and no inserts in between.
- GrantCopies.RecordedEventsRebuildGrants: no attempt reads a root while another running attempt has written it; the event id and time stamped on a fact are left out.
- StrictIso.AcceptsExactlyRealTimes: strings are sequences of characters matched by shape; the other accepted input, a `Date` object, is passed through unchanged by the code and is not modelled.
- UserRepository.UsersPort.FindByExternalSubject: a JavaScript `Map` iterates in insertion order; here any order is allowed.
- LoginRuns.WorldInvReached: `AuthenticateHandler` is a step system and not a class, because its reads and writes interleave with other attempts; token resolution, before the unit of work starts, is left out.
- LoginRuns.OneAnswerPerSubject: an answer carries the account id; the display name and email of the response, which are those of the account saved, are left out.
- Collective awards, special outcomes, the placeable threshold and the non-empty check on `fedBy`: each is settled by one branch.
- Error messages and reason texts: only which error, or valid and invalid.
- Branded ids, payload assertions, scope variants, event envelopes and `normalizeOccurredAt`: single checks.
- SQL text, connection pools, row-level security variables and handler timeouts: a transaction is begin, body, commit or rollback over an abstract table, and a handler returns or throws.
- The sample context's aggregates and the gate that closes an escaped context: copies of one shape over the same tracked map.
- The concrete FCI and KMSH content: finite tables.
