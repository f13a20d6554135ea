/** How a filter on the components of joined rows moves through a join, outer joins included. */
module JoinFilter {
  import opened Collections
  import opened Syntax
  import opened Evaluator

  /** The join kind left over once null-extended rows are filtered away: `dropsLeft` when the
      filter refuses a null-extended left side, `dropsRight` when it refuses a null right side. */
  function NarrowKind(kind: JoinKind, dropsLeft: bool, dropsRight: bool): JoinKind {
    match kind
    case Inner => Inner
    case Cross => Cross
    case LeftOuter => if dropsRight then Inner else LeftOuter
    case RightOuter => if dropsLeft then Inner else RightOuter
    case FullOuter =>
      if dropsLeft && dropsRight then Inner
      else if dropsLeft then LeftOuter
      else if dropsRight then RightOuter
      else FullOuter
  }

  /** A row-wise filter: one condition for the left components, one for the new component. */
  function Split(okLeft: Frame -> bool, okRight: Binding -> bool): Frame -> bool {
    (f: Frame) => |f| > 0 && okLeft(f[..|f| - 1]) && okRight(f[|f| - 1])
  }

  lemma SplitSnoc(okLeft: Frame -> bool, okRight: Binding -> bool, l: Frame, r: Binding)
    ensures Split(okLeft, okRight)(l + [r]) == (okLeft(l) && okRight(r))
  {
    assert (l + [r])[..|l|] == l;
  }

  lemma {:induction false} FilterMatches(l: Frame, rs: seq<Binding>, on: (Frame, Binding) -> bool,
                                         okLeft: Frame -> bool, okRight: Binding -> bool)
    ensures Filter(Matches(l, rs, on), Split(okLeft, okRight))
         == if okLeft(l) then Matches(l, Filter(rs, okRight), on) else []
  {
    if |rs| != 0 {
      var ok := Split(okLeft, okRight);
      var r := rs[0];
      var rest := Matches(l, rs[1..], on);
      FilterMatches(l, rs[1..], on, okLeft, okRight);
      SplitSnoc(okLeft, okRight, l, r);
      FilterAppend(if on(l, r) then [l + [r]] else [], rest, ok);
      if okRight(r) {
        MatchesCons(l, r, Filter(rs[1..], okRight), on);
      }
    }
  }

  lemma {:induction false} MatchesCons(l: Frame, r: Binding, rs: seq<Binding>, on: (Frame, Binding) -> bool)
    ensures Matches(l, [r] + rs, on) == (if on(l, r) then [l + [r]] else []) + Matches(l, rs, on)
  {
    assert ([r] + rs)[1..] == rs;
  }

  lemma {:induction false} MatchesEmpty(l: Frame, rs: seq<Binding>, on: (Frame, Binding) -> bool)
    ensures |Matches(l, rs, on)| == 0 <==> forall r :: r in rs ==> !on(l, r)
  {
    if |rs| != 0 {
      MatchesEmpty(l, rs[1..], on);
      assert rs == [rs[0]] + rs[1..];
    }
  }

  /** The left-driven half of a join. */
  lemma {:induction false} FilterLeftPart(ls: seq<Frame>, rs: seq<Binding>, keep: bool, on: (Frame, Binding) -> bool,
                                          nullRight: Binding, okLeft: Frame -> bool, okRight: Binding -> bool,
                                          dropsRight: bool)
    requires dropsRight ==> !okRight(nullRight)
    requires !dropsRight ==> okRight(nullRight) && forall r :: r in rs ==> okRight(r)
    ensures Filter(LeftPart(ls, rs, keep, on, nullRight), Split(okLeft, okRight))
         == LeftPart(Filter(ls, okLeft), Filter(rs, okRight), keep && !dropsRight, on, nullRight)
  {
    if |ls| != 0 {
      var ok := Split(okLeft, okRight);
      var l := ls[0];
      var found := Matches(l, rs, on);
      var here := if |found| == 0 && keep then [l + [nullRight]] else found;
      var rest := LeftPart(ls[1..], rs, keep, on, nullRight);
      FilterLeftPart(ls[1..], rs, keep, on, nullRight, okLeft, okRight, dropsRight);
      FilterAppend(here, rest, ok);
      FilterMatches(l, rs, on, okLeft, okRight);
      SplitSnoc(okLeft, okRight, l, nullRight);
      if !dropsRight {
        FilterAll(rs, okRight);
      }
      if okLeft(l) {
        var kept := Filter(ls[1..], okLeft);
        assert Filter(ls, okLeft) == [l] + kept;
        assert ([l] + kept)[1..] == kept;
        if |found| == 0 && keep && !dropsRight {
          assert Filter(here, ok) == here;
        }
      }
    }
  }

  lemma {:induction false} MatchedSame(ls: seq<Frame>, okLeft: Frame -> bool, r: Binding,
                                       on: (Frame, Binding) -> bool)
    requires forall l :: l in ls ==> okLeft(l)
    ensures Matched(Filter(ls, okLeft), r, on) == Matched(ls, r, on)
  {
    FilterAll(ls, okLeft);
  }

  /** The right-driven half of a join: the dangling right rows. */
  lemma {:induction false} FilterRightPart(ls: seq<Frame>, rs: seq<Binding>, on: (Frame, Binding) -> bool,
                                           nullLeft: Frame, okLeft: Frame -> bool, okRight: Binding -> bool,
                                           dropsLeft: bool)
    requires dropsLeft ==> !okLeft(nullLeft)
    requires !dropsLeft ==> okLeft(nullLeft) && forall l :: l in ls ==> okLeft(l)
    ensures Filter(RightPart(ls, rs, on, nullLeft), Split(okLeft, okRight))
         == if dropsLeft then [] else RightPart(Filter(ls, okLeft), Filter(rs, okRight), on, nullLeft)
  {
    if |rs| != 0 {
      var r := rs[0];
      var here := if Matched(ls, r, on) then [] else [nullLeft + [r]];
      FilterRightPart(ls, rs[1..], on, nullLeft, okLeft, okRight, dropsLeft);
      FilterAppend(here, RightPart(ls, rs[1..], on, nullLeft), Split(okLeft, okRight));
      SplitSnoc(okLeft, okRight, nullLeft, r);
      if !dropsLeft {
        MatchedSame(ls, okLeft, r, on);
        if okRight(r) {
          var kept := Filter(rs[1..], okRight);
          assert Filter(rs, okRight) == [r] + kept;
          assert ([r] + kept)[1..] == kept;
        }
      }
    }
  }

  /** Filtering a join of any kind is the narrowed join of the filtered sides. */
  lemma {:induction false} FilterJoin(ls: seq<Frame>, rs: seq<Binding>, kind: JoinKind, on: (Frame, Binding) -> bool,
                                      nullLeft: Frame, nullRight: Binding, okLeft: Frame -> bool,
                                      okRight: Binding -> bool, dropsLeft: bool, dropsRight: bool)
    requires dropsLeft ==> !okLeft(nullLeft)
    requires !dropsLeft ==> okLeft(nullLeft) && forall l :: l in ls ==> okLeft(l)
    requires dropsRight ==> !okRight(nullRight)
    requires !dropsRight ==> okRight(nullRight) && forall r :: r in rs ==> okRight(r)
    ensures Filter(JoinRows(ls, rs, kind, on, nullLeft, nullRight), Split(okLeft, okRight))
         == JoinRows(Filter(ls, okLeft), Filter(rs, okRight), NarrowKind(kind, dropsLeft, dropsRight),
                     on, nullLeft, nullRight)
  {
    FilterLeftPart(ls, rs, KeepsLeft(kind), on, nullRight, okLeft, okRight, dropsRight);
    FilterRightPart(ls, rs, on, nullLeft, okLeft, okRight, dropsLeft);
    FilterAppend(LeftPart(ls, rs, KeepsLeft(kind), on, nullRight),
                 if KeepsRight(kind) then RightPart(ls, rs, on, nullLeft) else [], Split(okLeft, okRight));
  }

  // ----- congruence: a join depends on its condition only through its values -----

  lemma {:induction false} MatchesSame(l: Frame, rs: seq<Binding>, on: (Frame, Binding) -> bool,
                                       on': (Frame, Binding) -> bool)
    requires forall l: Frame, r: Binding :: on(l, r) == on'(l, r)
    ensures Matches(l, rs, on) == Matches(l, rs, on')
  {
    if |rs| != 0 {
      MatchesSame(l, rs[1..], on, on');
    }
  }

  lemma {:induction false} LeftPartSame(ls: seq<Frame>, rs: seq<Binding>, keep: bool, on: (Frame, Binding) -> bool,
                                        on': (Frame, Binding) -> bool, nullRight: Binding)
    requires forall l: Frame, r: Binding :: on(l, r) == on'(l, r)
    ensures LeftPart(ls, rs, keep, on, nullRight) == LeftPart(ls, rs, keep, on', nullRight)
  {
    if |ls| != 0 {
      MatchesSame(ls[0], rs, on, on');
      LeftPartSame(ls[1..], rs, keep, on, on', nullRight);
    }
  }

  lemma {:induction false} RightPartSame(ls: seq<Frame>, rs: seq<Binding>, on: (Frame, Binding) -> bool,
                                         on': (Frame, Binding) -> bool, nullLeft: Frame)
    requires forall l: Frame, r: Binding :: on(l, r) == on'(l, r)
    ensures RightPart(ls, rs, on, nullLeft) == RightPart(ls, rs, on', nullLeft)
  {
    if |rs| != 0 {
      assert Matched(ls, rs[0], on) == Matched(ls, rs[0], on');
      RightPartSame(ls, rs[1..], on, on', nullLeft);
    }
  }

  lemma JoinRowsSame(ls: seq<Frame>, rs: seq<Binding>, kind: JoinKind, on: (Frame, Binding) -> bool,
                     on': (Frame, Binding) -> bool, nullLeft: Frame, nullRight: Binding)
    requires forall l: Frame, r: Binding :: on(l, r) == on'(l, r)
    ensures JoinRows(ls, rs, kind, on, nullLeft, nullRight) == JoinRows(ls, rs, kind, on', nullLeft, nullRight)
  {
    LeftPartSame(ls, rs, KeepsLeft(kind), on, on', nullRight);
    RightPartSame(ls, rs, on, on', nullLeft);
  }
}
