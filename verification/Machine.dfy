/**
 Runs of a step machine.

 Every concurrent protocol in this project is a deterministic step function `(state, event) -> Option<state>`:
 `None` means the event cannot happen in that state. Which event happens next is the scheduler's choice, so a
 statement about every list of events is a statement about every interleaving.
 */
module Machine {

  datatype Option<+T> = None | Some(value: T)

  /** The state after the events `es`, or None when one of them cannot happen. */
  function Run<S, E>(step: (S, E) -> Option<S>, s: S, es: seq<E>): (r: Option<S>)
  {
    if es == [] then Some(s)
    else match step(s, es[0])
      case None => None
      case Some(t) => Run(step, t, es[1..])
  }

  /** A run can be cut anywhere. */
  lemma {:induction false} RunSplit<S, E>(step: (S, E) -> Option<S>, s: S, pre: seq<E>, post: seq<E>)
    ensures Run(step, s, pre + post) ==
            match Run(step, s, pre) case None => None case Some(m) => Run(step, m, post)
  {
    if pre == [] {
      assert pre + post == post;
    } else {
      assert (pre + post)[1..] == pre[1..] + post;
      match step(s, pre[0])
      case None =>
      case Some(t) => RunSplit(step, t, pre[1..], post);
    }
  }

  lemma RunOneMore<S, E>(step: (S, E) -> Option<S>, s: S, es: seq<E>, e: E)
    requires Run(step, s, es).Some?
    ensures Run(step, s, es + [e]) == step(Run(step, s, es).value, e)
  {
    RunSplit(step, s, es, [e]);
    assert [e][1..] == [];
  }

  /** A run ends with its last event. */
  lemma RunLast<S, E>(step: (S, E) -> Option<S>, s: S, es: seq<E>)
    requires es != [] && Run(step, s, es).Some?
    ensures var pre := es[..|es| - 1];
            Run(step, s, pre).Some? && step(Run(step, s, pre).value, es[|es| - 1]) == Run(step, s, es)
  {
    var pre := es[..|es| - 1];
    assert es == pre + [es[|es| - 1]];
    RunSplit(step, s, pre, [es[|es| - 1]]);
    RunOneMore(step, s, pre, es[|es| - 1]);
  }

  lemma InLast<E>(es: seq<E>, x: E)
    requires es != []
    ensures x in es <==> x in es[..|es| - 1] || x == es[|es| - 1]
  {
    assert es == es[..|es| - 1] + [es[|es| - 1]];
  }

  /** Runs that follow one another are one run. */
  lemma {:induction false} RunFour<S, E>(
    step: (S, E) -> Option<S>, s: S, a: seq<E>, t: S, b: seq<E>, u: S, c: seq<E>, v: S, d: seq<E>)
    requires Run(step, s, a) == Some(t) && Run(step, t, b) == Some(u) && Run(step, u, c) == Some(v)
    ensures Run(step, s, a + b) == Some(u) && Run(step, s, a + b + c) == Some(v)
    ensures Run(step, s, a + b + c + d) == Run(step, v, d)
  {
    RunSplit(step, s, a, b);
    RunSplit(step, s, a + b, c);
    RunSplit(step, s, a + b + c, d);
  }

  lemma RunTwo<S, E>(step: (S, E) -> Option<S>, s: S, a: E, b: E)
    requires step(s, a).Some?
    ensures Run(step, s, [a, b]) == step(step(s, a).value, b)
  {
    var t := step(s, a).value;
    assert [a, b][1..] == [b];
    assert Run(step, s, [a, b]) == Run(step, t, [b]);
    assert [b][1..] == [] && [b][0] == b;
  }

  ghost predicate Inductive<S(!new), E(!new)>(step: (S, E) -> Option<S>, inv: S -> bool)
  {
    forall s, e :: inv(s) && step(s, e).Some? ==> inv(step(s, e).value)
  }

  /** What every step keeps holds at the end of every run. */
  lemma {:induction false} Invariance<S(!new), E(!new)>(step: (S, E) -> Option<S>, inv: S -> bool, s: S, es: seq<E>)
    requires inv(s) && Inductive(step, inv)
    ensures Run(step, s, es).Some? ==> inv(Run(step, s, es).value)
  {
    if es == [] {
    } else {
      match step(s, es[0])
      case None =>
      case Some(t) => Invariance(step, inv, t, es[1..]);
    }
  }

  /** Event i switches on, and none after it off. */
  ghost predicate OnAt<E(!new)>(es: seq<E>, i: int, on: E -> bool, off: E -> bool)
  {
    0 <= i < |es| && on(es[i]) && forall j :: i < j < |es| ==> !off(es[j])
  }

  /** At the end of the run it is on: it was so from the start or was switched on, and was not switched off since. */
  ghost predicate Since<E(!new)>(es: seq<E>, start: bool, on: E -> bool, off: E -> bool)
  {
    (start && forall j :: 0 <= j < |es| ==> !off(es[j])) || exists i :: OnAt(es, i, on, off)
  }

  lemma OnAtLast<E(!new)>(es: seq<E>, i: int, on: E -> bool, off: E -> bool)
    requires es != []
    ensures var pre, e := es[..|es| - 1], es[|es| - 1];
            OnAt(es, i, on, off) <==> if i == |es| - 1 then on(e) else OnAt(pre, i, on, off) && !off(e)
  {
    var pre, n := es[..|es| - 1], |es| - 1;
    if 0 <= i < n {
      assert pre[i] == es[i];
      if OnAt(pre, i, on, off) && !off(es[n]) {
        forall j | i < j < |es| ensures !off(es[j]) { assert j < n ==> pre[j] == es[j]; }
      }
      if OnAt(es, i, on, off) {
        forall j | i < j < n ensures !off(pre[j]) { assert pre[j] == es[j]; }
      }
    }
  }

  lemma NeverOffLast<E(!new)>(es: seq<E>, off: E -> bool)
    requires es != []
    ensures var pre := es[..|es| - 1];
            (forall j :: 0 <= j < |es| ==> !off(es[j])) <==>
              (forall j :: 0 <= j < |pre| ==> !off(pre[j])) && !off(es[|es| - 1])
  {
    var pre := es[..|es| - 1];
    assert forall j :: 0 <= j < |pre| ==> pre[j] == es[j];
  }

  /** The last event switches on, or leaves on. */
  lemma SinceLast<E(!new)>(es: seq<E>, start: bool, on: E -> bool, off: E -> bool)
    requires es != []
    ensures var pre, e := es[..|es| - 1], es[|es| - 1];
            Since(es, start, on, off) <==> on(e) || (Since(pre, start, on, off) && !off(e))
  {
    var pre, e := es[..|es| - 1], es[|es| - 1];
    NeverOffLast(es, off);
    forall i: int ensures OnAt(es, i, on, off) <==> if i == |es| - 1 then on(e) else OnAt(pre, i, on, off) && !off(e) {
      OnAtLast(es, i, on, off);
    }
    assert OnAt(es, |es| - 1, on, off) <==> on(e);
  }
}
