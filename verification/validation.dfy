/** The input validators shared by the signup, admin and rating handlers
    (backend/utils/validation.js). Each returns `None` (JavaScript `null`) or
    one message. A missing body field reaches them as `undefined`; every check
    treats it exactly like the empty string, so the model passes "" for it. */
module Validation {
  import opened Common

  const NameMessage := "Name must be between 20 and 60 characters"
  const EmailMessage := "Please enter a valid email address"
  const PasswordLengthMessage := "Password must be between 8 and 16 characters"
  const PasswordUpperMessage := "Password must contain at least one uppercase letter"
  const PasswordSpecialMessage := "Password must contain at least one special character"
  const AddressMessage := "Address must not exceed 400 characters"
  const RatingMessage := "Rating must be between 1 and 5"

  // ---------------------------------------------------------------- name

  function ValidateName(name: string): (r: Option<string>)
    ensures r.None? <==> 20 <= |name| <= 60
    ensures r.Some? ==> r.value == NameMessage
  {
    if |name| == 0 || |name| < 20 || |name| > 60 then Some(NameMessage) else None
  }

  // ---------------------------------------------------------------- email

  /** The characters of the regular-expression class `\s`. */
  predicate IsSpace(c: char) {
    c == ' ' || c == '\t' || c == '\n' || c == '\r' || c == '\U{000B}' || c == '\U{000C}'
    || c == '\U{00A0}' || c == '\U{1680}' || ('\U{2000}' <= c <= '\U{200A}')
    || c == '\U{2028}' || c == '\U{2029}' || c == '\U{202F}' || c == '\U{205F}'
    || c == '\U{3000}' || c == '\U{FEFF}'
  }

  /** A character of the class `[^\s@]`. */
  predicate Plain(c: char) {
    !IsSpace(c) && c != '@'
  }

  predicate AllPlain(s: string) {
    forall i | 0 <= i < |s| :: Plain(s[i])
  }

  /** The domain holds a dot that is neither its first nor its last character. */
  predicate DottedDomain(d: string) {
    exists j | 0 < j < |d| - 1 :: d[j] == '.'
  }

  /** `s` splits at `k` into a plain local part, the one `@`, and a plain
      dotted domain. */
  predicate AtSplit(s: string, k: int) {
    0 <= k < |s| && s[k] == '@' && AllPlain(s[..k]) && AllPlain(s[k + 1..]) && DottedDomain(s[k + 1..])
  }

  /** The strings `^[^\s@]+@[^\s@]+\.[^\s@]+$` matches, said directly: one `@`
      at a position `k > 0`, no white space and no other `@` on either side,
      and a domain with an inner dot. */
  predicate EmailShaped(s: string) {
    exists k | 0 < k < |s| :: AtSplit(s, k)
  }

  /** The matcher for the email expression, run left to right over the input. */
  datatype EmailState =
    | Start      // nothing read
    | Local      // a non-empty local part
    | AfterAt    // the local part and the `@`
    | Domain     // a non-empty domain without a usable dot yet
    | Dot        // the domain ends in a dot that is not its first character
    | Accept     // an inner dot with something after it: a match so far
    | Reject

  function Step(q: EmailState, c: char): EmailState {
    match q
    case Start => if Plain(c) then Local else Reject
    case Local => if c == '@' then AfterAt else if Plain(c) then Local else Reject
    case AfterAt => if Plain(c) then Domain else Reject
    case Domain => if c == '.' then Dot else if Plain(c) then Domain else Reject
    case Dot => if Plain(c) then Accept else Reject
    case Accept => if Plain(c) then Accept else Reject
    case Reject => Reject
  }

  function Run(q: EmailState, s: string): EmailState
    decreases |s|
  {
    if |s| == 0 then q else Run(Step(q, s[0]), s[1..])
  }

  lemma {:induction false} RunReject(s: string)
    ensures Run(Reject, s) == Reject
    decreases |s|
  {
    if |s| > 0 { RunReject(s[1..]); }
  }

  lemma {:induction false} RunAccept(s: string)
    ensures Run(Accept, s) == Accept <==> AllPlain(s)
    decreases |s|
  {
    if |s| > 0 {
      if Plain(s[0]) {
        RunAccept(s[1..]);
        assert AllPlain(s) <==> AllPlain(s[1..]) by {
          if AllPlain(s[1..]) {
            forall i | 0 <= i < |s| ensures Plain(s[i]) {
              if i > 0 { assert s[i] == s[1..][i - 1]; }
            }
          }
        }
      } else {
        RunReject(s[1..]);
      }
    }
  }

  lemma RunDot(s: string)
    ensures Run(Dot, s) == Accept <==> |s| > 0 && AllPlain(s)
  {
    if |s| > 0 {
      if Plain(s[0]) {
        RunAccept(s[1..]);
        assert AllPlain(s) <==> AllPlain(s[1..]) by {
          if AllPlain(s[1..]) {
            forall i | 0 <= i < |s| ensures Plain(s[i]) {
              if i > 0 { assert s[i] == s[1..][i - 1]; }
            }
          }
        }
      } else {
        RunReject(s[1..]);
      }
    }
  }

  /** From `Domain`, the rest must be plain and hold a dot with something after it. */
  lemma {:induction false} RunDomain(s: string)
    ensures Run(Domain, s) == Accept <==> AllPlain(s) && exists j | 0 <= j < |s| - 1 :: s[j] == '.'
    decreases |s|
  {
    if |s| > 0 {
      var t := s[1..];
      assert AllPlain(s) <==> Plain(s[0]) && AllPlain(t) by {
        if Plain(s[0]) && AllPlain(t) {
          forall i | 0 <= i < |s| ensures Plain(s[i]) {
            if i > 0 { assert s[i] == t[i - 1]; }
          }
        }
      }
      if !Plain(s[0]) {
        RunReject(t);
      } else if s[0] == '.' {
        RunDot(t);
      } else {
        RunDomain(t);
        if exists j | 0 <= j < |s| - 1 :: s[j] == '.' {
          var j :| 0 <= j < |s| - 1 && s[j] == '.';
          assert j > 0 && t[j - 1] == '.';
        }
        if exists j | 0 <= j < |t| - 1 :: t[j] == '.' {
          var j :| 0 <= j < |t| - 1 && t[j] == '.';
          assert s[j + 1] == '.';
        }
      }
    }
  }

  /** From `AfterAt`, the rest must be exactly a dotted, plain domain. */
  lemma RunAfterAt(d: string)
    ensures Run(AfterAt, d) == Accept <==> AllPlain(d) && DottedDomain(d)
  {
    if |d| == 0 {
    } else {
      var t := d[1..];
      assert AllPlain(d) <==> Plain(d[0]) && AllPlain(t) by {
        if Plain(d[0]) && AllPlain(t) {
          forall i | 0 <= i < |d| ensures Plain(d[i]) {
            if i > 0 { assert d[i] == t[i - 1]; }
          }
        }
      }
      if !Plain(d[0]) {
        RunReject(t);
      } else {
        RunDomain(t);
        if DottedDomain(d) {
          var j :| 0 < j < |d| - 1 && d[j] == '.';
          assert t[j - 1] == '.';
        }
        if exists j | 0 <= j < |t| - 1 :: t[j] == '.' {
          var j :| 0 <= j < |t| - 1 && t[j] == '.';
          assert d[j + 1] == '.';
        }
      }
    }
  }

  lemma AllPlainCons(c: char, t: string)
    ensures AllPlain([c] + t) <==> Plain(c) && AllPlain(t)
  {
    var s := [c] + t;
    if Plain(c) && AllPlain(t) {
      forall i | 0 <= i < |s| ensures Plain(s[i]) {
        if i > 0 { assert s[i] == t[i - 1]; }
      }
    }
    if AllPlain(s) {
      assert Plain(s[0]);
      forall i | 0 <= i < |t| ensures Plain(t[i]) {
        assert t[i] == s[i + 1];
      }
    }
  }

  /** Dropping a plain first character moves every split point one to the left. */
  lemma AtSplitShift(s: string, k: int)
    requires |s| > 0 && Plain(s[0]) && 1 <= k
    ensures AtSplit(s, k) <==> AtSplit(s[1..], k - 1)
  {
    if k < |s| {
      var t := s[1..];
      assert s[..k] == [s[0]] + t[..k - 1];
      AllPlainCons(s[0], t[..k - 1]);
      assert t[k - 1] == s[k];
      assert t[k..] == s[k + 1..];
    }
  }

  /** From `Local`: the rest is more plain local characters, an `@`, and a dotted domain. */
  lemma {:induction false} RunLocal(s: string)
    ensures Run(Local, s) == Accept <==> exists k | 0 <= k < |s| :: AtSplit(s, k)
    decreases |s|
  {
    if |s| > 0 {
      var t := s[1..];
      if s[0] == '@' {
        RunAfterAt(t);
        assert s[..0] == [];
        forall k | 1 <= k < |s| ensures !AtSplit(s, k) {
          assert s[..k][0] == '@';
        }
        assert AtSplit(s, 0) <==> AllPlain(t) && DottedDomain(t);
      } else if !Plain(s[0]) {
        RunReject(t);
        forall k | 0 <= k < |s| ensures !AtSplit(s, k) {
          if k > 0 { assert s[..k][0] == s[0]; }
        }
      } else {
        RunLocal(t);
        if exists k | 0 <= k < |s| :: AtSplit(s, k) {
          var k :| 0 <= k < |s| && AtSplit(s, k);
          AtSplitShift(s, k);
          assert AtSplit(t, k - 1);
        }
        if exists k | 0 <= k < |t| :: AtSplit(t, k) {
          var k :| 0 <= k < |t| && AtSplit(t, k);
          AtSplitShift(s, k + 1);
          assert AtSplit(s, k + 1);
        }
      }
    }
  }

  /** The matcher accepts exactly the email-shaped strings. */
  lemma EmailMatcherCorrect(s: string)
    ensures Run(Start, s) == Accept <==> EmailShaped(s)
  {
    if |s| > 0 {
      var t := s[1..];
      if Plain(s[0]) {
        RunLocal(t);
        if EmailShaped(s) {
          var k :| 0 < k < |s| && AtSplit(s, k);
          AtSplitShift(s, k);
          assert AtSplit(t, k - 1);
        }
        if exists k | 0 <= k < |t| :: AtSplit(t, k) {
          var k :| 0 <= k < |t| && AtSplit(t, k);
          AtSplitShift(s, k + 1);
          assert AtSplit(s, k + 1);
        }
      } else {
        RunReject(t);
        forall k | 0 < k < |s| ensures !AtSplit(s, k) {
          assert s[..k][0] == s[0];
        }
      }
    }
  }

  /** `validateEmail`: the regular-expression test, run by the matcher above. */
  function ValidateEmail(email: string): (r: Option<string>)
    ensures r.None? <==> EmailShaped(email)
    ensures r.Some? ==> r.value == EmailMessage
  {
    EmailMatcherCorrect(email);
    if |email| == 0 || Run(Start, email) != Accept then Some(EmailMessage) else None
  }

  // ---------------------------------------------------------------- password

  /** A character of the class `[!@#$%^&*(),.?":{}|<>]`. */
  predicate IsSpecial(c: char) {
    c in "!@#$%^&*(),.?\":{}|<>"
  }

  predicate HasUpper(s: string) {
    exists i | 0 <= i < |s| :: 'A' <= s[i] <= 'Z'
  }

  predicate HasSpecial(s: string) {
    exists i | 0 <= i < |s| :: IsSpecial(s[i])
  }

  /** The checks run in order: length, then an upper-case letter, then a special
      character; the first one that fails names the message. */
  function ValidatePassword(password: string): (r: Option<string>)
    ensures r.None? <==> 8 <= |password| <= 16 && HasUpper(password) && HasSpecial(password)
    ensures !(8 <= |password| <= 16) ==> r == Some(PasswordLengthMessage)
    ensures 8 <= |password| <= 16 && !HasUpper(password) ==> r == Some(PasswordUpperMessage)
    ensures 8 <= |password| <= 16 && HasUpper(password) && !HasSpecial(password) ==>
              r == Some(PasswordSpecialMessage)
  {
    if |password| == 0 || |password| < 8 || |password| > 16 then Some(PasswordLengthMessage)
    else if !HasUpper(password) then Some(PasswordUpperMessage)
    else if !HasSpecial(password) then Some(PasswordSpecialMessage)
    else None
  }

  // ---------------------------------------------------------------- address

  /** `!address` rejects the empty address too, with the same message. */
  function ValidateAddress(address: string): (r: Option<string>)
    ensures r.None? <==> 1 <= |address| <= 400
    ensures r.Some? ==> r.value == AddressMessage
  {
    if |address| == 0 || |address| > 400 then Some(AddressMessage) else None
  }

  // ---------------------------------------------------------------- rating

  /** A JSON body value as the rating handlers receive it. */
  datatype BodyValue = Undefined | Num(n: real) | Str(s: string)

  /** JavaScript truthiness of such a value. */
  predicate Truthy(v: BodyValue) {
    match v
    case Undefined => false
    case Num(n) => n != 0.0
    case Str(s) => s != ""
  }

  /** The white space `parseInt` skips before the number (the `\s` set). */
  predicate IsLeadingSpace(c: char) {
    IsSpace(c)
  }

  function DigitValue(c: char): nat {
    if '0' <= c <= '9' then c as int - '0' as int
    else if 'a' <= c <= 'z' then c as int - 'a' as int + 10
    else if 'A' <= c <= 'Z' then c as int - 'A' as int + 10
    else 36
  }

  predicate IsDigitIn(c: char, radix: nat) {
    DigitValue(c) < radix
  }

  /** The number of leading digits of `s` in `radix`. */
  function DigitRun(s: string, radix: nat): (n: nat)
    ensures n <= |s|
    ensures forall i | 0 <= i < n :: IsDigitIn(s[i], radix)
    ensures n < |s| ==> !IsDigitIn(s[n], radix)
  {
    if |s| == 0 || !IsDigitIn(s[0], radix) then 0 else 1 + DigitRun(s[1..], radix)
  }

  /** The value of a run of digits, most significant first. */
  function DigitsValue(s: string, radix: nat): nat
    requires forall i | 0 <= i < |s| :: IsDigitIn(s[i], radix)
  {
    if |s| == 0 then 0
    else
      var high := DigitsValue(s[..|s| - 1], radix);
      ProductOfNats(high, radix);
      high * radix + DigitValue(s[|s| - 1])
  }

  lemma ProductOfNats(a: nat, b: nat)
    ensures a * b >= 0
  {
  }

  function DropSpace(s: string): (r: string)
    ensures |r| == 0 || !IsLeadingSpace(r[0])
  {
    if |s| > 0 && IsLeadingSpace(s[0]) then DropSpace(s[1..]) else s
  }

  /** `parseInt(s)` with no radix: skip white space, take a sign, read hexadecimal
      after `0x`/`0X` and decimal otherwise, and stop at the first non-digit.
      `None` is `NaN`. */
  function ParseIntText(s: string): (r: Option<int>)
    ensures DropSpace(s) == [] ==> r.None?
    ensures r.Some? && r.value < 0 ==> DropSpace(s)[0] == '-'
    ensures |DropSpace(s)| > 0 && '1' <= DropSpace(s)[0] <= '9' ==> r.Some? && r.value >= 0
    ensures var c := if DropSpace(s) == [] then '0' else DropSpace(s)[0];
      !IsDigitIn(c, 10) && c != '-' && c != '+' ==> r.None?
  {
    var t := DropSpace(s);
    var negative := |t| > 0 && t[0] == '-';
    var u := if |t| > 0 && (t[0] == '-' || t[0] == '+') then t[1..] else t;
    var hex := |u| >= 2 && u[0] == '0' && (u[1] == 'x' || u[1] == 'X');
    var radix := if hex then 16 else 10;
    var body := if hex then u[2..] else u;
    var n := DigitRun(body, radix);
    if n == 0 then None
    else
      var magnitude: int := DigitsValue(body[..n], radix);
      Some(if negative then -magnitude else magnitude)
  }

  /** A number converted the way `parseInt` reads its decimal text: truncated
      toward zero. */
  function Trunc(x: real): (t: int)
    ensures x >= 0.0 ==> 0 <= t && t as real <= x < t as real + 1.0
    ensures x < 0.0 ==> t <= 0 && t as real - 1.0 < x <= t as real
  {
    if x >= 0.0 then x.Floor else -((-x).Floor)
  }

  function ParseInt(v: BodyValue): (n: Option<int>) {
    match v
    case Undefined => None
    case Num(x) => Some(Trunc(x))
    case Str(s) => ParseIntText(s)
  }

  function ValidateRating(rating: BodyValue): (r: Option<string>)
    ensures r.None? <==> ParseInt(rating).Some? && 1 <= ParseInt(rating).value <= 5
    ensures r.Some? ==> r.value == RatingMessage
  {
    var n := ParseInt(rating);
    if n.None? || n.value < 1 || n.value > 5 then Some(RatingMessage) else None
  }

  /** A JSON number is accepted exactly when it lies in [1, 6): `parseInt`
      drops the fraction, so 5.9 counts as 5 and 6 is refused. */
  lemma NumberRatingAccepted(x: real)
    ensures ValidateRating(Num(x)) == None <==> 1.0 <= x < 6.0
  {
    if x >= 0.0 {
      assert x.Floor as real <= x < x.Floor as real + 1.0;
    } else {
      assert (-x).Floor as real <= -x < (-x).Floor as real + 1.0;
    }
  }

  /** A text that starts with a digit 1-5 and continues with anything but a
      digit is accepted and read as that digit: "3" and "3.9" both give 3. */
  lemma TextRatingPrefix(d: char, rest: string)
    requires '1' <= d <= '5'
    requires |rest| == 0 || !('0' <= rest[0] <= '9')
    ensures ParseInt(Str([d] + rest)) == Some(d as int - '0' as int)
    ensures ValidateRating(Str([d] + rest)) == None
  {
    var s := [d] + rest;
    assert DropSpace(s) == s;
    assert s[1..] == rest;
    assert DigitRun(s, 10) == 1;
    assert s[..1] == [d];
    assert DigitsValue([d], 10) == DigitsValue([], 10) * 10 + DigitValue(d);
  }

  // ---------------------------------------------------------------- account forms

  /** The chain every account form runs, name, email, password, address, each
      returning on its first failure (backend/routes/auth.js and admin.js). */
  function AccountFieldsError(name: string, email: string, password: string, address: string)
    : (r: Option<string>)
    ensures r.None? <==> && 20 <= |name| <= 60 && EmailShaped(email)
                         && 8 <= |password| <= 16 && HasUpper(password) && HasSpecial(password)
                         && 1 <= |address| <= 400
    ensures !(20 <= |name| <= 60) ==> r == Some(NameMessage)
    ensures 20 <= |name| <= 60 && !EmailShaped(email) ==> r == Some(EmailMessage)
    ensures 20 <= |name| <= 60 && EmailShaped(email) && ValidatePassword(password).Some? ==>
              r == ValidatePassword(password)
    ensures (20 <= |name| <= 60 && EmailShaped(email) && ValidatePassword(password).None?
             && !(1 <= |address| <= 400)) ==> r == Some(AddressMessage)
  {
    if ValidateName(name).Some? then ValidateName(name)
    else if ValidateEmail(email).Some? then ValidateEmail(email)
    else if ValidatePassword(password).Some? then ValidatePassword(password)
    else ValidateAddress(address)
  }
}
