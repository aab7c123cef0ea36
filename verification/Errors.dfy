/** Error values as the session code builds them, and the question whether a cleanup failed somewhere inside one. */
module Errors {
  import opened Octets

  datatype Error =
    | Plain(text: string)
    | Wrapped(text: string, cause: Error)
    | Joined(errors: seq<Error>)
    | Cleanup(cause: Error)

  /** `errors.As` for a cleanup error: anywhere in the tree of wrapped and joined errors. */
  predicate Failed(e: Error) {
    match e
    case Plain(_) => false
    case Wrapped(_, cause) => Failed(cause)
    case Joined(errors) => exists k :: 0 <= k < |errors| && Failed(errors[k])
    case Cleanup(_) => true
  }

  /** `inner` is `e` itself or somewhere inside it, through any wrapping and joining. */
  predicate Within(inner: Error, e: Error) {
    inner == e ||
    match e
    case Plain(_) => false
    case Wrapped(_, cause) => Within(inner, cause)
    case Joined(errors) => exists k :: 0 <= k < |errors| && Within(inner, errors[k])
    case Cleanup(cause) => Within(inner, cause)
  }

  /** The question is whether a cleanup error is somewhere inside. */
  lemma {:induction false} FailedIff(e: Error)
    ensures Failed(e) <==> exists cause :: Within(Cleanup(cause), e)
  {
    match e {
      case Plain(_) =>
      case Wrapped(_, cause) =>
        FailedIff(cause);
        if c :| Within(Cleanup(c), cause) {
          assert Within(Cleanup(c), e);
        }
      case Joined(errors) =>
        forall k | 0 <= k < |errors|
          ensures Failed(errors[k]) <==> exists cause :: Within(Cleanup(cause), errors[k])
        {
          FailedIff(errors[k]);
        }
        if k :| 0 <= k < |errors| && Failed(errors[k]) {
          var c :| Within(Cleanup(c), errors[k]);
          assert Within(Cleanup(c), e);
        }
      case Cleanup(cause) =>
        assert Within(Cleanup(cause), e);
    }
  }

  predicate CleanupFailed(e: Option<Error>) {
    e.Some? && Failed(e.value)
  }

  function Present(errors: seq<Option<Error>>): seq<Error> {
    if errors == [] then []
    else (if errors[0].Some? then [errors[0].value] else []) + Present(errors[1..])
  }

  /** `errors.Join`: nothing if there is nothing to join. */
  function Join(errors: seq<Option<Error>>): Option<Error> {
    if Present(errors) == [] then None else Some(Joined(Present(errors)))
  }

  lemma {:induction false} PresentIs(errors: seq<Option<Error>>, e: Error)
    ensures e in Present(errors) <==> Some(e) in errors
  {
    if errors != [] {
      PresentIs(errors[1..], e);
      assert errors == [errors[0]] + errors[1..];
    }
  }

  /** A failed cleanup is seen through every join, and a join does not make one up. */
  lemma JoinKeepsCleanup(errors: seq<Option<Error>>)
    ensures CleanupFailed(Join(errors)) <==> exists k :: 0 <= k < |errors| && CleanupFailed(errors[k])
    ensures Join(errors).None? <==> forall k :: 0 <= k < |errors| ==> errors[k].None?
  {
    var p := Present(errors);
    if k :| 0 <= k < |p| && Failed(p[k]) {
      PresentIs(errors, p[k]);
      var i :| 0 <= i < |errors| && errors[i] == Some(p[k]);
    }
    if i :| 0 <= i < |errors| && errors[i].Some? {
      PresentIs(errors, errors[i].value);
    }
    if i :| 0 <= i < |errors| && CleanupFailed(errors[i]) {
      PresentIs(errors, errors[i].value);
      var k :| 0 <= k < |p| && p[k] == errors[i].value;
      assert Failed(Joined(p));
    }
    if p != [] {
      PresentIs(errors, p[0]);
    }
  }

  /** The two-error form every caller uses. */
  lemma JoinTwo(a: Option<Error>, b: Option<Error>)
    ensures CleanupFailed(Join([a, b])) <==> CleanupFailed(a) || CleanupFailed(b)
    ensures Join([a, b]).None? <==> a.None? && b.None?
  {
    JoinKeepsCleanup([a, b]);
    assert [a, b][0] == a && [a, b][1] == b;
  }
}
