/** The shape every tool's validation has: a fixed sequence of checks, each on
    one field, run in order; the first check that fails raises a ValidationError
    naming its field, and nothing after it runs. */
module Validation {
  import opened Errors

  /** One check of one field: `failure` is the message it raises, or None when
      the field passes. */
  datatype Check = Check(field: string, failure: Option<string>)

  predicate Passes(c: Check) { c.failure.None? }

  /** A check that fails with `message` exactly when `fails` holds. */
  function CheckThat(field: string, fails: bool, message: string): (c: Check)
    ensures c.field == field && (Passes(c) <==> !fails)
    ensures !Passes(c) ==> c.failure.value == message
  {
    Check(field, if fails then Some(message) else None)
  }

  /** The error the ordered checks raise, if any. */
  function FirstFailure(checks: seq<Check>): (r: Option<Error>)
    ensures r.Some? ==> r.value.Validation? && r.value.field.Some?
  {
    if checks == [] then None
    else if checks[0].failure.Some? then
      Some(Validation(checks[0].failure.value, Some(checks[0].field)))
    else FirstFailure(checks[1..])
  }

  /** The failing check that decides the error: it fails, and every check before
      it passes. */
  predicate IsFirstFailing(checks: seq<Check>, k: nat) {
    && k < |checks|
    && checks[k].failure.Some?
    && forall j | 0 <= j < k :: Passes(checks[j])
  }

  /** Validation-order determinism: the checks raise nothing exactly when every
      check passes, and otherwise they raise the message of the first failing
      check, attributed to that check's field. */
  lemma {:induction false} FirstFailureIsFirst(checks: seq<Check>)
    ensures FirstFailure(checks).None? <==> forall i | 0 <= i < |checks| :: Passes(checks[i])
    ensures FirstFailure(checks).Some? ==>
      exists k: nat | k < |checks| :: IsFirstFailing(checks, k)
        && FirstFailure(checks).value == Validation(checks[k].failure.value, Some(checks[k].field))
  {
    if checks != [] && checks[0].failure.None? {
      var rest := checks[1..];
      FirstFailureIsFirst(rest);
      if FirstFailure(rest).Some? {
        var k: nat :| k < |rest| && IsFirstFailing(rest, k)
          && FirstFailure(rest).value == Validation(rest[k].failure.value, Some(rest[k].field));
        assert IsFirstFailing(checks, k + 1) by {
          forall j | 0 <= j < k + 1 ensures Passes(checks[j]) {
            if j > 0 { assert checks[j] == rest[j - 1]; }
          }
        }
      } else {
        forall i | 0 <= i < |checks| ensures Passes(checks[i]) {
          if i > 0 { assert checks[i] == rest[i - 1]; }
        }
      }
    } else if checks != [] {
      assert IsFirstFailing(checks, 0);
    }
  }

  /** The error raised by a failing check that every earlier check lets pass. */
  lemma {:induction false} FirstFailureAt(checks: seq<Check>, k: nat)
    requires IsFirstFailing(checks, k)
    ensures FirstFailure(checks) == Some(Validation(checks[k].failure.value, Some(checks[k].field)))
  {
    if k > 0 {
      var rest := checks[1..];
      assert IsFirstFailing(rest, k - 1) by {
        forall j | 0 <= j < k - 1 ensures Passes(rest[j]) {
          assert rest[j] == checks[j + 1];
        }
      }
      FirstFailureAt(rest, k - 1);
    }
  }

  /** Running two groups of checks one after the other: the second group is
      reached only when the first raises nothing. */
  lemma {:induction false} FirstFailureAppend(a: seq<Check>, b: seq<Check>)
    ensures FirstFailure(a + b) == if FirstFailure(a).Some? then FirstFailure(a) else FirstFailure(b)
  {
    if a != [] {
      assert (a + b)[0] == a[0];
      assert (a + b)[1..] == a[1..] + b;
      FirstFailureAppend(a[1..], b);
    } else {
      assert a + b == b;
    }
  }
}
