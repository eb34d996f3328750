/** Small shared datatypes and sequence helpers used by every other module. */
module Common {

  /** JavaScript's `null`/`undefined` against a present value. */
  datatype Option<+T> = None | Some(value: T)

  /** What an HTTP handler sends back: a success status with its JSON body, or an
      error status with the `{ error }` message. */
  datatype Reply<+T> = Ok(status: nat, body: T) | Err(status: nat, error: string)

  const ServerError := "Server error"

  /** Index of the first element satisfying `p` (a `find` over a table). */
  function IndexWhere<T>(s: seq<T>, p: T -> bool): (r: Option<nat>)
    ensures r.Some? ==> r.value < |s| && p(s[r.value])
    ensures r.Some? ==> forall i | 0 <= i < r.value :: !p(s[i])
    ensures r.None? <==> forall i | 0 <= i < |s| :: !p(s[i])
  {
    if |s| == 0 then None
    else if p(s[0]) then Some(0)
    else match IndexWhere(s[1..], p)
      case None => None
      case Some(k) => Some(k + 1)
  }

  /** The first present entry of a list of check results, in order: the
      early-return chain `if (e1) return e1; if (e2) return e2; ...`. */
  function FirstError(checks: seq<Option<string>>): (r: Option<string>)
    ensures r.None? <==> forall i | 0 <= i < |checks| :: checks[i].None?
    ensures r.Some? ==> exists i | 0 <= i < |checks| ::
                          checks[i] == r && forall j | 0 <= j < i :: checks[j].None?
  {
    if |checks| == 0 then None
    else if checks[0].Some? then checks[0]
    else
      var rest := FirstError(checks[1..]);
      assert rest.Some? ==> exists i | 1 <= i < |checks| ::
                              checks[i] == rest && forall j | 0 <= j < i :: checks[j].None? by {
        if rest.Some? {
          var i :| 0 <= i < |checks| - 1 && checks[1..][i] == rest && forall j | 0 <= j < i :: checks[1..][j].None?;
          assert checks[i + 1] == rest;
          assert forall j | 0 <= j < i + 1 :: checks[j].None? by {
            forall j | 0 <= j < i + 1 ensures checks[j].None? {
              if j > 0 { assert checks[j] == checks[1..][j - 1]; }
            }
          }
        }
      }
      rest
  }

  /** A positive factor cancels from both sides of `<`. */
  lemma CancelFactor(c: int, a: int, b: int)
    requires c > 0 && c * a < c * b
    ensures a < b
  {
    assert c * b - c * a == c * (b - a);
  }
}
