/** The `User` aggregate: an immutable account whose mutators return a copy (user.ts:169-294). */
module Users {
  import opened Wrappers

  datatype UserId = UserId(text: string)
  datatype Status = Active | Suspended
  datatype Claims = Claims(sub: string, displayName: string, email: string)

  /** Claim canonicalization: trimming a name, trimming and lowercasing an email, and the blank test. */
  datatype Canon = Canon(name: string -> string, email: string -> string, isBlank: string -> bool)

  datatype UserError = InvalidProviderClaims | UserIsSuspended | InvalidStatusTransition

  datatype User = User(
    id: UserId, displayName: string, email: string, status: Status, externalSubject: string, version: nat)
  {
    predicate Valid(canon: Canon) { !canon.isBlank(externalSubject) && !canon.isBlank(email) }

    /** The constructor's guard, run on every construction path. */
    function Checked(canon: Canon): Result<User, UserError> {
      if Valid(canon) then Success(this) else Failure(InvalidProviderClaims)
    }

    function LogIn(canon: Canon, claims: Claims): Result<User, UserError> {
      if status == Suspended then Failure(UserIsSuspended)
      else
        var name, mail := canon.name(claims.displayName), canon.email(claims.email);
        this.(displayName := if canon.isBlank(name) then displayName else name,
              email := if canon.isBlank(mail) then email else mail).Checked(canon)
    }

    /** `suspend` and `reactivate`: a transition to the status already held is refused. */
    function WithStatus(canon: Canon, target: Status): Result<User, UserError> {
      if status == target then Failure(InvalidStatusTransition) else this.(status := target).Checked(canon)
    }
  }

  function Register(canon: Canon, id: UserId, claims: Claims): Result<User, UserError> {
    User(id, canon.name(claims.displayName), canon.email(claims.email), Active, claims.sub, 1).Checked(canon)
  }

  /**
   A first login registers an Active account at version 1 under the given id, with the claims' canonical name and email
   and the subject as it came, unless the subject or the canonical email is blank.
   */
  lemma RegisterExactly(canon: Canon, id: UserId, claims: Claims)
    ensures Register(canon, id, claims).Success? <==> !canon.isBlank(claims.sub) && !canon.isBlank(canon.email(claims.email))
    ensures Register(canon, id, claims).Failure? ==> Register(canon, id, claims).error == InvalidProviderClaims
    ensures Register(canon, id, claims).Success? ==>
              var u := Register(canon, id, claims).value;
              && u.id == id && u.status == Active && u.version == 1 && u.externalSubject == claims.sub
              && u.displayName == canon.name(claims.displayName) && u.email == canon.email(claims.email)
  {
  }

  /** A status change flips the status and nothing else, and is refused only when the status is already held. */
  lemma WithStatusExactly(canon: Canon, u: User, target: Status)
    requires u.Valid(canon)
    ensures u.WithStatus(canon, target) == if u.status == target then Failure(InvalidStatusTransition)
                                           else Success(User(u.id, u.displayName, u.email, target, u.externalSubject, u.version))
  {
  }

  /**
   A login refreshes the profile of an Active account only: identity, status and version are kept, the name and
   email become the claims' canonical ones unless those are blank, and a valid account stays valid.
   */
  lemma LogInKeeps(canon: Canon, u: User, claims: Claims)
    requires u.Valid(canon)
    ensures u.LogIn(canon, claims).Success? <==> u.status == Active
    ensures u.status == Suspended ==> u.LogIn(canon, claims) == Failure(UserIsSuspended)
    ensures u.LogIn(canon, claims).Success? ==>
              var v := u.LogIn(canon, claims).value;
              && v.Valid(canon)
              && v.id == u.id && v.status == u.status && v.externalSubject == u.externalSubject && v.version == u.version
              && v.displayName == (if canon.isBlank(canon.name(claims.displayName)) then u.displayName else canon.name(claims.displayName))
              && v.email == (if canon.isBlank(canon.email(claims.email)) then u.email else canon.email(claims.email))
  {
  }
}
