/** Findings and the error values rules and the walker return (lualin/lint.go:26-36).
    Go's `error` result is one of: nil, a single `*LintError`, a `LintErrors`
    collection (possibly empty), or some other error. */
module Findings {
  import opened Options
  import opened Policies

  /** One violation. `rule` is the producing rule, `None` for the older rules that
      leave it unset. */
  datatype LintError = LintError(rule: Option<Policy>, line: int, message: string)

  datatype Error =
    | Nil
    | LintErr(err: LintError)
    | LintErrs(errs: seq<LintError>)
      /** An error that is not a finding; it carries only its text here. */
    | Foreign(message: string)

  /** The findings a non-foreign error adds to the walker's list (lualin/lint.go:69-79). */
  function Adds(e: Error): seq<LintError>
    requires !e.Foreign?
  {
    match e
    case Nil => []
    case LintErr(x) => [x]
    case LintErrs(xs) => xs
  }

  /** The walker's final step (lualin/lint.go:85-88, 153-156): a non-empty list is
      returned as a collection, an empty one as nil. */
  function Pack(errs: seq<LintError>): (e: Error)
    ensures !e.Foreign? && Adds(e) == errs
    ensures e == Nil <==> errs == []
    ensures !e.LintErr?
  {
    if |errs| > 0 then LintErrs(errs) else Nil
  }

  /** The same findings with the rule reference cleared. */
  function Unattributed(errs: seq<LintError>): (r: seq<LintError>)
    ensures |r| == |errs|
    ensures forall i :: 0 <= i < |errs| ==> r[i] == errs[i].(rule := None)
  {
    seq(|errs|, i requires 0 <= i < |errs| => errs[i].(rule := None))
  }

  function UnattributedCheck(o: Option<LintError>): Option<LintError>
  {
    if o.Some? then Some(o.value.(rule := None)) else None
  }

  /** Clearing the rule of every gathered finding is gathering the cleared checks. */
  lemma {:induction false} PresentUnattributed(xs: seq<Option<LintError>>, ys: seq<Option<LintError>>)
    requires |xs| == |ys|
    requires forall i :: 0 <= i < |xs| ==> ys[i] == UnattributedCheck(xs[i])
    ensures Present(ys) == Unattributed(Present(xs))
    decreases |xs|
  {
    if xs != [] {
      var n := |xs| - 1;
      PresentUnattributed(xs[..n], ys[..n]);
    }
  }

  /** Two messages built from the same template name the same thing. */
  lemma SameTemplate(a: string, b: string, template: string)
    requires a + template == b + template
    ensures a == b
  {
    assert |a| == |b|;
    assert (a + template)[..|a|] == a;
    assert (b + template)[..|b|] == b;
  }
}
