/** Whether a dog may enter a class on a show day (fci-class-eligibility-policy.ts:39-72). */
module ClassEligibility {
  import opened Wrappers
  import opened EcmaTime
  import opened LocalDates
  import opened RulesetModel

  datatype EntryProfile = EntryProfile(dateOfBirth: LocalDate, heldCertificates: seq<string>, handlerIsBreederOfDog: bool)

  predicate HoldsAll(required: seq<string>, held: seq<string>) {
    forall i :: 0 <= i < |required| ==> required[i] in held
  }

  function IsEligible(k: ClassDefinition, p: EntryProfile, showDate: LocalDate): Result<bool, DateError> {
    match showDate.CompletedMonthsSince(p.dateOfBirth)
    case Failure(e) => Failure(e)
    case Success(age) =>
      if k.fromAgeMonths.Some? && age < k.fromAgeMonths.value then Success(false)
      else if k.lessThanAgeMonths.Some? && age >= k.lessThanAgeMonths.value then Success(false)
      else if !HoldsAll(k.requiredCertificates, p.heldCertificates) then Success(false)
      else if k.bredByExhibitor && !p.handlerIsBreederOfDog then Success(false)
      else Success(true)
  }

  /** The day a dog reaches an age in months: the birthday's day number in that month. */
  ghost predicate HasReached(p: EntryProfile, months: nat, showDate: LocalDate) {
    OnOrBefore(Shift(p.dateOfBirth.Fields(), months), showDate.Fields())
  }

  /**
   The answer in calendar terms: an error before the birth date, and from then on the lower age has been
   reached, the upper one has not, and the conditions that do not depend on the date hold.
   */
  lemma EligibleExactly(k: ClassDefinition, p: EntryProfile, showDate: LocalDate)
    requires p.dateOfBirth.Valid() && showDate.Valid()
    ensures IsEligible(k, p, showDate) ==
      if !OnOrBefore(p.dateOfBirth.Fields(), showDate.Fields()) then Failure(LocalDateBeforeReference)
      else Success(
        && (k.fromAgeMonths.Some? ==> HasReached(p, k.fromAgeMonths.value, showDate))
        && (k.lessThanAgeMonths.Some? ==> !HasReached(p, k.lessThanAgeMonths.value, showDate))
        && (forall certificate :: certificate in k.requiredCertificates ==> certificate in p.heldCertificates)
        && (k.bredByExhibitor ==> p.handlerIsBreederOfDog))
  {
    AgeIsLargestShift(showDate, p.dateOfBirth);
    OrderIsLexicographic(p.dateOfBirth, showDate);
    assert HoldsAll(k.requiredCertificates, p.heldCertificates) <==>
           forall certificate :: certificate in k.requiredCertificates ==> certificate in p.heldCertificates;
    hide CivilOf, Shift, HoldsAll, Constructible, OnOrBefore, LocalDate.CompletedMonthsSince, LocalDate.Valid;
    if k.fromAgeMonths.Some? { assert (k.fromAgeMonths.value as int) == k.fromAgeMonths.value; }
  }

  /** The show dates on which a dog may enter a class form one unbroken interval. */
  lemma EligibleDatesAreAnInterval(k: ClassDefinition, p: EntryProfile, a: LocalDate, b: LocalDate, c: LocalDate)
    requires p.dateOfBirth.Valid() && a.Valid() && b.Valid() && c.Valid()
    requires a.IsOnOrBefore(b) && b.IsOnOrBefore(c)
    requires IsEligible(k, p, a) == Success(true) && IsEligible(k, p, c) == Success(true)
    ensures IsEligible(k, p, b) == Success(true)
  {
    hide LocalDate.Valid, LocalDate.CompletedMonthsSince;
    AgeIsLargestShift(a, p.dateOfBirth);
    AgeIsMonotone(p.dateOfBirth, a, b);
    AgeIsMonotone(p.dateOfBirth, b, c);
  }
}
