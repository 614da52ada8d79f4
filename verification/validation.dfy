/**
 * The required-field checks the handlers declare with
 * `check(param, msg).not().isEmpty()`: a check fails when its body value is
 * missing or empty, and the handler answers with the failed checks' errors, in
 * the order the checks were declared, before touching the store.
 */
module Validation {
  import opened Wrappers
  import opened JsText

  datatype FieldError = FieldError(param: string, msg: string)

  /** One declared check: the body key it reads, the value found, and its message. */
  datatype Check = Check(param: string, value: Option<string>, msg: string)

  function ErrorOf(c: Check): FieldError {
    FieldError(c.param, c.msg)
  }

  /**
   * The errors of the failed checks. The list is empty exactly when every value
   * is present and non-empty; each error comes from a failed check, and a check
   * that passes contributes nothing.
   */
  function Failures(checks: seq<Check>): (r: seq<FieldError>)
    ensures r == [] <==> forall i :: 0 <= i < |checks| ==> Truthy(checks[i].value)
    ensures forall e :: e in r ==> exists c :: c in checks && !Truthy(c.value) && e == ErrorOf(c)
    ensures forall i :: 0 <= i < |checks| && !Truthy(checks[i].value) ==> ErrorOf(checks[i]) in r
    ensures |r| <= |checks|
    ensures |checks| == 1 ==> r == (if Truthy(checks[0].value) then [] else [ErrorOf(checks[0])])
    decreases |checks|
  {
    if |checks| == 0 then []
    else
      var rest := Failures(checks[1..]);
      if Truthy(checks[0].value) then rest else [ErrorOf(checks[0])] + rest
  }

  /**
   * The errors of consecutive groups of checks are the groups' errors one
   * after the other. With the one-check case of `Failures` this fixes the list
   * completely: one error per failed check, in declaration order.
   */
  lemma {:induction false} FailuresAppend(a: seq<Check>, b: seq<Check>)
    ensures Failures(a + b) == Failures(a) + Failures(b)
    decreases |a|
  {
    if |a| == 0 {
      assert a + b == b;
    } else {
      assert (a + b)[0] == a[0];
      assert (a + b)[1..] == a[1..] + b;
      FailuresAppend(a[1..], b);
    }
  }

  /** Three checks, as each handler declares, give their errors in declaration order. */
  lemma FailuresOfThree(c0: Check, c1: Check, c2: Check)
    ensures Failures([c0, c1, c2]) == Failures([c0]) + Failures([c1]) + Failures([c2])
  {
    assert [c0, c1, c2] == [c0] + [c1] + [c2];
    FailuresAppend([c0] + [c1], [c2]);
    FailuresAppend([c0], [c1]);
  }

  /** A missing value followed by a present one gives exactly one error, the first check's. */
  lemma FailuresExample()
    ensures Failures([Check("a", None, "m"), Check("b", Some("x"), "n")]) == [FieldError("a", "m")]
  {
    var cs := [Check("a", None, "m"), Check("b", Some("x"), "n")];
    assert cs == [cs[0]] + [cs[1]];
    FailuresAppend([cs[0]], [cs[1]]);
  }
}
