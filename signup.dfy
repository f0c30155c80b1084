/** `POST /api/auth/signup`: validates the four form fields in a fixed order,
    then refuses an email that is already registered (compared lower-cased)
    and stores the new user with a hashed password. */
module SignupRoute {
  import opened Base
  import opened JsText
  import opened Store

  datatype SignupBody = SignupBody(name: JsValue, email: JsValue, password: JsValue, confirmPassword: JsValue)

  /** Why a body is refused before the store is consulted, one case per 400 message. */
  datatype Rejection = MissingField | PasswordMismatch | PasswordTooShort | InvalidEmail

  const MinPasswordLength: nat := 6

  /** No white space and no `@`: the class `[^\s@]`. */
  predicate Plain(t: string) {
    forall k :: 0 <= k < |t| ==> !IsSpace(t[k]) && t[k] != '@'
  }

  /** Index of the first `@` in `s`, or `|s|` when there is none. */
  function FirstAt(s: string): (a: nat)
    ensures a <= |s|
    ensures forall k :: 0 <= k < a ==> s[k] != '@'
    ensures a < |s| ==> s[a] == '@'
  {
    if s == [] || s[0] == '@' then 0 else 1 + FirstAt(s[1..])
  }

  /** `/^[^\s@]+@[^\s@]+\.[^\s@]+$/.test(s)`, decided by splitting at the
      first `@` and looking for a dot strictly inside the domain. */
  predicate IsEmail(s: string) {
    var a := FirstAt(s);
    0 < a < |s| && Plain(s[..a]) && Plain(s[a + 1..]) && HasInnerDot(s[a + 1..])
  }

  /** A dot that is neither the first nor the last character. */
  predicate HasInnerDot(t: string) {
    exists d :: 0 < d < |t| - 1 && t[d] == '.'
  }

  /** The pattern read as a shape: a non-empty local part, one `@`, a
      non-empty label, a dot, a non-empty tail, and no white space or other
      `@` anywhere. */
  ghost predicate EmailShape(s: string) {
    exists a, d :: 0 < a && a + 1 < d && d + 1 < |s| && s[a] == '@' && s[d] == '.'
                   && forall k :: 0 <= k < |s| && k != a ==> !IsSpace(s[k]) && s[k] != '@'
  }

  /** The split-at-the-first-`@` decision accepts exactly the strings of the pattern's shape. */
  lemma IsEmailIffShape(s: string)
    ensures IsEmail(s) <==> EmailShape(s)
  {
    var a := FirstAt(s);
    if IsEmail(s) {
      var domain := s[a + 1..];
      var d :| 0 < d < |domain| - 1 && domain[d] == '.';
      forall k | 0 <= k < |s| && k != a ensures !IsSpace(s[k]) && s[k] != '@' {
        if k < a {
          assert s[..a][k] == s[k];
        } else {
          assert domain[k - a - 1] == s[k];
        }
      }
      assert s[a + 1 + d] == '.';
    }
    if EmailShape(s) {
      var a', d :| 0 < a' && a' + 1 < d && d + 1 < |s| && s[a'] == '@' && s[d] == '.'
                  && forall k :: 0 <= k < |s| && k != a' ==> !IsSpace(s[k]) && s[k] != '@';
      assert a == a';
      var domain := s[a + 1..];
      assert domain[d - a - 1] == '.';
      assert Plain(s[..a]) by {
        forall k | 0 <= k < a ensures !IsSpace(s[..a][k]) && s[..a][k] != '@' {
          assert s[..a][k] == s[k];
        }
      }
      assert Plain(domain) by {
        forall k | 0 <= k < |domain| ensures !IsSpace(domain[k]) && domain[k] != '@' {
          assert domain[k] == s[a + 1 + k];
        }
      }
    }
  }

  /** The checks before the store is touched, in the handler's order. The
      length check reads `password.length`, which a non-string password does
      not have, so only a string can be too short. */
  function Validate(body: SignupBody): (r: Option<Rejection>)
    ensures r.None? <==> Truthy(body.name) && Truthy(body.email) && Truthy(body.password)
                         && body.password == body.confirmPassword
                         && (body.password.Str? ==> |body.password.s| >= MinPasswordLength)
                         && EmailShape(ToJsString(body.email))
    ensures r == Some(MissingField) <==>
              !Truthy(body.name) || !Truthy(body.email) || !Truthy(body.password) || !Truthy(body.confirmPassword)
    ensures r == Some(PasswordMismatch) <==>
              Truthy(body.name) && Truthy(body.email) && Truthy(body.password) && Truthy(body.confirmPassword)
              && body.password != body.confirmPassword
    ensures r == Some(PasswordTooShort) <==>
              Truthy(body.name) && Truthy(body.email) && Truthy(body.password) && Truthy(body.confirmPassword)
              && body.password == body.confirmPassword
              && body.password.Str? && |body.password.s| < MinPasswordLength
    ensures r == Some(InvalidEmail) <==>
              Truthy(body.name) && Truthy(body.email) && Truthy(body.password) && Truthy(body.confirmPassword)
              && body.password == body.confirmPassword
              && (body.password.Str? ==> |body.password.s| >= MinPasswordLength)
              && !EmailShape(ToJsString(body.email))
  {
    IsEmailIffShape(ToJsString(body.email));
    if !Truthy(body.name) || !Truthy(body.email) || !Truthy(body.password) || !Truthy(body.confirmPassword) then
      Some(MissingField)
    else if body.password != body.confirmPassword then Some(PasswordMismatch)
    else if body.password.Str? && |body.password.s| < MinPasswordLength then Some(PasswordTooShort)
    else if !IsEmail(ToJsString(body.email)) then Some(InvalidEmail)
    else None
  }

  /** The rendering of a number has no `@`. */
  lemma NoAtInNumber(n: int)
    ensures '@' !in NumberString(n)
  {
    var m: nat := if n < 0 then -n else n;
    var digits := NatString(m);
    assert forall k :: 0 <= k < |digits| ==> digits[k] != '@';
    if n < 0 {
      assert NumberString(n) == "-" + digits;
    }
  }

  /** Only a string can pass the email pattern, so the `toLowerCase` call that
      follows validation never meets a number or a boolean. */
  lemma ValidEmailIsString(body: SignupBody)
    requires Validate(body).None?
    ensures body.email.Str?
  {
    var s := ToJsString(body.email);
    assert EmailShape(s);
    var a, d :| 0 < a && a + 1 < d && d + 1 < |s| && s[a] == '@' && s[d] == '.'
                && forall k :: 0 <= k < |s| && k != a ==> !IsSpace(s[k]) && s[k] != '@';
    match body.email
    case Num(n) => NoAtInNumber(n);
    case _ =>
  }

  /** The handler. `hash` stands for bcrypt, which throws on a non-string
      password (answered with 500 by the catch-all); the lookup comes first,
      so a taken email is still a 400. */
  method Signup(db: Db, body: SignupBody, hash: string -> string, now: int, freshId: Id)
    returns (status: nat, rejection: Option<Rejection>)
    requires db.Valid()
    requires freshId !in db.users.docs
    modifies db
    ensures db.Valid()
    ensures db.folders == old(db.folders) && db.files == old(db.files)
    ensures rejection == Validate(body)
    ensures rejection.None? ==> body.email.Str?
    ensures rejection.Some? ==> status == BadRequest
    ensures rejection.None? && EmailTaken(old(db.users.docs), Lower(body.email.s)) ==> status == BadRequest
    ensures rejection.None? && !EmailTaken(old(db.users.docs), Lower(body.email.s)) && !body.password.Str?
            ==> status == InternalError
    ensures status == Created <==>
              rejection.None? && !EmailTaken(old(db.users.docs), Lower(body.email.s)) && body.password.Str?
    ensures status != Created ==> db.users == old(db.users)
    ensures status == Created ==>
              db.users == old(db.users).Insert(freshId, User(body.name, Lower(body.email.s), hash(body.password.s), now))
              && EmailTaken(db.users.docs, Lower(body.email.s))
  {
    rejection := Validate(body);
    if rejection.Some? {
      return BadRequest, rejection;
    }
    ValidEmailIsString(body);
    var email := Lower(body.email.s);
    if EmailTaken(db.users.docs, email) {
      return BadRequest, rejection;
    }
    if !body.password.Str? {
      return InternalError, rejection;
    }
    LowerIdempotent(body.email.s);
    var user := User(body.name, email, hash(body.password.s), now);
    db.users := db.users.Insert(freshId, user);
    assert db.users.docs[freshId] == user;
    status := Created;
  }
}
