/**
 The pass that keeps comments of dropped AST nodes, by shifting every comment to a position that survived.

 Comments hang on byte positions, in a leading and a trailing map. The pass collects the spans it still sees, drains
 both maps, and puts every comment back in front of the least known span start at or above it, or behind the
 greatest known span end when there is none.
 */
module DroppedComments {
  import opened Sequences
  import opened StableSort

  type Comment = string
  type Comments = map<nat, seq<Comment>>

  datatype Span = Span(lo: nat, hi: nat)
  datatype Entry = Entry(bp: nat, comments: seq<Comment>)

  // ---------------------------------------------------------------------------------------------------------
  // Comments by position
  // ---------------------------------------------------------------------------------------------------------

  function Get(m: Comments, p: nat): (cs: seq<Comment>)
  {
    if p in m then m[p] else []
  }

  /** All comments at p: leading ones first. */
  function AtPos(lead: Comments, trail: Comments, p: nat): (cs: seq<Comment>)
  {
    Get(lead, p) + Get(trail, p)
  }

  /** What `at` has on the positions a..b-1, in order of position. */
  function Gather(at: nat -> seq<Comment>, a: nat, b: nat): (cs: seq<Comment>)
    decreases b
  {
    if a >= b then [] else Gather(at, a, b - 1) + at(b - 1)
  }

  lemma {:induction false} GatherSame(f: nat -> seq<Comment>, g: nat -> seq<Comment>, a: nat, b: nat)
    requires forall p :: a <= p < b ==> f(p) == g(p)
    ensures Gather(f, a, b) == Gather(g, a, b)
    decreases b
  {
    if a >= b {
    } else {
      GatherSame(f, g, a, b - 1);
    }
  }

  lemma {:induction false} GatherNothing(f: nat -> seq<Comment>, a: nat, b: nat)
    requires forall p :: a <= p < b ==> f(p) == []
    ensures Gather(f, a, b) == []
    decreases b
  {
    if a >= b {
    } else {
      GatherNothing(f, a, b - 1);
    }
  }

  lemma {:induction false} GatherSplit(f: nat -> seq<Comment>, a: nat, m: nat, b: nat)
    requires a <= m <= b
    ensures Gather(f, a, b) == Gather(f, a, m) + Gather(f, m, b)
    decreases b
  {
    if m == b {
    } else {
      GatherSplit(f, a, m, b - 1);
    }
  }

  /** Positions without comments do not matter. */
  lemma {:induction false} GatherBeyond(f: nat -> seq<Comment>, a: nat, b: nat, c: nat)
    requires b <= c && forall p :: b <= p < c ==> f(p) == []
    ensures Gather(f, a, c) == Gather(f, a, b)
  {
    if a <= b {
      GatherSplit(f, a, b, c);
      GatherNothing(f, b, c);
    } else {
      GatherNothing(f, a, c);
      GatherNothing(f, a, b);
    }
  }

  /** One more comment list in front, at a position below which there is nothing. */
  lemma {:induction false} GatherPrepend(
    f: nat -> seq<Comment>, g: nat -> seq<Comment>, c: seq<Comment>, q: nat, b: nat)
    requires q < b && g(q) == c + f(q)
    requires forall p: nat :: p < q ==> f(p) == [] && g(p) == []
    requires forall p :: q < p < b ==> g(p) == f(p)
    ensures Gather(g, 0, b) == c + Gather(f, 0, b)
    decreases b
  {
    if q == b - 1 {
      GatherNothing(f, 0, q);
      GatherNothing(g, 0, q);
    } else {
      GatherPrepend(f, g, c, q, b - 1);
    }
  }

  // ---------------------------------------------------------------------------------------------------------
  // What the pass promises
  // ---------------------------------------------------------------------------------------------------------

  function Los(spans: seq<Span>): (los: set<nat>)
  {
    set s | s in spans :: s.lo
  }

  /** The end the leftovers trail; the end of the dummy span when no span is known. */
  function MaxHi(spans: seq<Span>): (h: nat)
    ensures forall s :: s in spans ==> s.hi <= h
    ensures spans != [] ==> exists s :: s in spans && s.hi == h
    ensures spans == [] ==> h == 0
  {
    if spans == [] then 0
    else
      var h := MaxHi(spans[1..]);
      if h <= spans[0].hi then spans[0].hi else h
  }

  /** `lo` is the least known start at or above p. */
  ghost predicate IsHome(los: set<nat>, p: nat, lo: nat)
  {
    lo in los && p <= lo && forall l :: l in los && p <= l ==> lo <= l
  }

  /** Every known start is below p. */
  ghost predicate Homeless(los: set<nat>, p: nat)
  {
    forall l :: l in los ==> l < p
  }

  ghost function HomeAt(lead: Comments, trail: Comments, los: set<nat>, lo: nat, p: nat): (cs: seq<Comment>)
  {
    if IsHome(los, p, lo) then AtPos(lead, trail, p) else []
  }

  ghost function BelongsTo(lead: Comments, trail: Comments, los: set<nat>, lo: nat): nat -> seq<Comment>
  {
    (p: nat) => HomeAt(lead, trail, los, lo, p)
  }

  ghost function LeftAt(lead: Comments, trail: Comments, los: set<nat>, p: nat): (cs: seq<Comment>)
  {
    if Homeless(los, p) then AtPos(lead, trail, p) else []
  }

  ghost function Leftover(lead: Comments, trail: Comments, los: set<nat>): nat -> seq<Comment>
  {
    (p: nat) => LeftAt(lead, trail, los, p)
  }

  ghost function All(lead: Comments, trail: Comments): nat -> seq<Comment>
  {
    (p: nat) => AtPos(lead, trail, p)
  }

  ghost function Above(keys: set<nat>): (b: nat)
    ensures forall k :: k in keys ==> k < b
  {
    if keys == {} then 0
    else
      var k :| k in keys;
      var b := Above(keys - {k});
      assert forall j :: j in keys ==> j == k || j in keys - {k};
      if b <= k then k + 1 else b
  }

  ghost function Limit(lead: Comments, trail: Comments): (b: nat)
    ensures forall p :: p in lead || p in trail ==> p < b
  {
    Above(lead.Keys + trail.Keys)
  }

  /** The comments whose home is `lo`, in order of position. */
  ghost function Gathered(lead: Comments, trail: Comments, los: set<nat>, lo: nat): (cs: seq<Comment>)
  {
    Gather(BelongsTo(lead, trail, los, lo), 0, lo + 1)
  }

  /** The leading map afterwards: at every known start, the comments whose home it is. */
  ghost function Shifted(lead: Comments, trail: Comments, los: set<nat>): (r: Comments)
    ensures r.Keys == los
  {
    map lo | lo in los :: Gathered(lead, trail, los, lo)
  }

  /** The trailing comments afterwards: those above every known start, in order of position. */
  ghost function Rest(lead: Comments, trail: Comments, los: set<nat>): (cs: seq<Comment>)
  {
    Gather(Leftover(lead, trail, los), 0, Limit(lead, trail))
  }

  lemma {:induction false} HomeExists(los: set<nat>, p: nat, l: nat) returns (lo: nat)
    requires l in los && p <= l
    ensures IsHome(los, p, lo) && lo <= l
    decreases l
  {
    if k :| k in los && p <= k < l {
      lo := HomeExists(los, p, k);
    } else {
      lo := l;
    }
  }

  /** What a stretch gathers is what lies in it. */
  lemma {:induction false} GatherHas(f: nat -> seq<Comment>, a: nat, b: nat, c: Comment)
    ensures c in Gather(f, a, b) <==> exists p: nat :: a <= p < b && c in f(p)
    decreases b
  {
    if a < b {
      GatherHas(f, a, b - 1, c);
      assert c in Gather(f, a, b) <==> c in Gather(f, a, b - 1) || c in f(b - 1);
    }
  }

  lemma PlaceHas(lead: Comments, trail: Comments, los: set<nat>, lo: nat, p: nat, c: Comment)
    ensures c in BelongsTo(lead, trail, los, lo)(p) <==>
              LiesAt(lead, trail, p, c) && lo in los && p <= lo && forall l :: l in los && p <= l ==> lo <= l
    ensures c in Leftover(lead, trail, los)(p) <==> LiesAt(lead, trail, p, c) && forall l :: l in los ==> l < p
    ensures LiesAt(lead, trail, p, c) ==> p < Limit(lead, trail)
  {}

  /** There is this comment at p, leading or trailing. */
  predicate LiesAt(lead: Comments, trail: Comments, p: nat, c: Comment)
  {
    (p in lead && c in lead[p]) || (p in trail && c in trail[p])
  }

  /**
   Where a comment goes: it leads the least known start at or above its position, and is left over exactly when every
   known start lies below it.
   */
  lemma {:induction false} CommentGoesToNextStart(lead: Comments, trail: Comments, los: set<nat>, c: Comment)
    ensures forall lo :: lo in los ==>
              (c in Shifted(lead, trail, los)[lo] <==>
                exists p: nat :: LiesAt(lead, trail, p, c) && p <= lo && forall l :: l in los && p <= l ==> lo <= l)
    ensures c in Rest(lead, trail, los) <==>
              exists p: nat :: LiesAt(lead, trail, p, c) && forall l :: l in los ==> l < p
  {
    forall lo | lo in los
      ensures c in Shifted(lead, trail, los)[lo] <==>
                exists p: nat :: LiesAt(lead, trail, p, c) && p <= lo && forall l :: l in los && p <= l ==> lo <= l
    {
      GatherHas(BelongsTo(lead, trail, los, lo), 0, lo + 1, c);
      forall p: nat { PlaceHas(lead, trail, los, lo, p, c); }
    }
    GatherHas(Leftover(lead, trail, los), 0, Limit(lead, trail), c);
    forall p: nat { PlaceHas(lead, trail, los, 0, p, c); }
  }

  /** The leading lists, read from left to right. */
  ghost function Laid(lead: Comments, trail: Comments, los: set<nat>): nat -> seq<Comment>
  {
    (p: nat) => Get(Shifted(lead, trail, los), p)
  }

  /** p has a home, and it is at or above b. */
  ghost predicate Waits(los: set<nat>, p: nat, b: nat)
  {
    (exists l :: l in los && p <= l) && forall l :: l in los && p <= l ==> b <= l
  }

  /** The comments that are not laid down before b, though they have a home. */
  ghost function Owed(lead: Comments, trail: Comments, los: set<nat>, b: nat): nat -> seq<Comment>
  {
    (p: nat) => if Waits(los, p, b) then AtPos(lead, trail, p) else []
  }

  /** What was met before b and is not laid down there: at most one of the two parts has anything. */
  ghost function Open(lead: Comments, trail: Comments, los: set<nat>, b: nat): (cs: seq<Comment>)
  {
    Gather(Owed(lead, trail, los, b), 0, b) + Gather(Leftover(lead, trail, los), 0, b)
  }

  /** Position b lays down what was open before it, less what stays open after it. */
  ghost predicate Balanced(lead: Comments, trail: Comments, los: set<nat>, b: nat)
  {
    Laid(lead, trail, los)(b) + Open(lead, trail, los, b + 1) == Open(lead, trail, los, b) + AtPos(lead, trail, b)
  }

  /** A known start lays down everything owed so far and its own comments. */
  lemma LayAtStart(lead: Comments, trail: Comments, los: set<nat>, b: nat)
    requires b in los
    ensures Balanced(lead, trail, los, b)
  {
    GatherSame(Owed(lead, trail, los, b), BelongsTo(lead, trail, los, b), 0, b);
    assert IsHome(los, b, b);
    GatherNothing(Owed(lead, trail, los, b + 1), 0, b + 1);
    GatherNothing(Leftover(lead, trail, los), 0, b + 1);
    GatherNothing(Leftover(lead, trail, los), 0, b);
    assert Open(lead, trail, los, b + 1) == [];
    assert Open(lead, trail, los, b) == Gather(Owed(lead, trail, los, b), 0, b);
    assert HomeAt(lead, trail, los, b, b) == AtPos(lead, trail, b);
    assert Gathered(lead, trail, los, b) == Gather(BelongsTo(lead, trail, los, b), 0, b) + AtPos(lead, trail, b);
    LaidAtStart(lead, trail, los, b);
  }

  lemma LaidAtStart(lead: Comments, trail: Comments, los: set<nat>, b: nat)
    requires b in los
    ensures Laid(lead, trail, los)(b) == Gathered(lead, trail, los, b)
  {
    assert b in Shifted(lead, trail, los);
    assert Shifted(lead, trail, los)[b] == Gathered(lead, trail, los, b);
  }

  lemma OwedGrows(lead: Comments, trail: Comments, los: set<nat>, b: nat, home: nat)
    requires b !in los && IsHome(los, b, home)
    ensures Gather(Owed(lead, trail, los, b + 1), 0, b + 1)
            == Gather(Owed(lead, trail, los, b), 0, b) + AtPos(lead, trail, b)
  {
    forall p: nat | p < b ensures Owed(lead, trail, los, b + 1)(p) == Owed(lead, trail, los, b)(p) {
      assert Waits(los, p, b + 1) <==> Waits(los, p, b);
    }
    GatherSame(Owed(lead, trail, los, b + 1), Owed(lead, trail, los, b), 0, b);
    assert Owed(lead, trail, los, b + 1)(b) == AtPos(lead, trail, b);
  }

  /** Below a known start nothing is left over. */
  lemma NoLeftover(lead: Comments, trail: Comments, los: set<nat>, b: nat, start: nat)
    requires start in los && b <= start + 1
    ensures Open(lead, trail, los, b) == Gather(Owed(lead, trail, los, b), 0, b)
  {
    forall p: nat | p < b ensures LeftAt(lead, trail, los, p) == [] { assert !Homeless(los, p); }
    GatherNothing(Leftover(lead, trail, los), 0, b);
  }

  /** At a position that is no known start but has a home ahead, the comments become owed. */
  lemma PassOwed(lead: Comments, trail: Comments, los: set<nat>, b: nat, home: nat)
    requires b !in los && IsHome(los, b, home)
    ensures Balanced(lead, trail, los, b)
  {
    OwedGrows(lead, trail, los, b, home);
    NoLeftover(lead, trail, los, b, home);
    NoLeftover(lead, trail, los, b + 1, home);
    assert Laid(lead, trail, los)(b) == [];
  }

  /** At a position above every known start, the comments are left over. */
  lemma PassLeftover(lead: Comments, trail: Comments, los: set<nat>, b: nat)
    requires Homeless(los, b)
    ensures Balanced(lead, trail, los, b)
  {
    NothingWaits(lead, trail, los, b);
    NothingWaits(lead, trail, los, b + 1);
    var left := Leftover(lead, trail, los);
    assert Gather(left, 0, b + 1) == Gather(left, 0, b) + left(b);
    assert left(b) == AtPos(lead, trail, b);
    assert Laid(lead, trail, los)(b) == [];
  }

  /** Above every known start nothing is owed to one. */
  lemma NothingWaits(lead: Comments, trail: Comments, los: set<nat>, b: nat)
    requires Homeless(los, b)
    ensures Open(lead, trail, los, b) == Gather(Leftover(lead, trail, los), 0, b)
  {
    var owed := Owed(lead, trail, los, b);
    forall p: nat | p < b ensures owed(p) == [] {}
    GatherNothing(owed, 0, b);
  }

  lemma LayOne(lead: Comments, trail: Comments, los: set<nat>, c: nat)
    ensures Balanced(lead, trail, los, c)
  {
    if c in los {
      LayAtStart(lead, trail, los, c);
    } else if Homeless(los, c) {
      PassLeftover(lead, trail, los, c);
    } else {
      var l :| l in los && c <= l;
      var home := HomeExists(los, c, l);
      PassOwed(lead, trail, los, c, home);
    }
  }

  /** If each position lays down what was open and not what stays open, all that was met is laid down or open. */
  lemma {:induction false} Telescope(
    laid: nat -> seq<Comment>, met: nat -> seq<Comment>, open: nat -> seq<Comment>, b: nat)
    requires open(0) == []
    requires forall c: nat :: laid(c) + open(c + 1) == open(c) + met(c)
    ensures Gather(laid, 0, b) + open(b) == Gather(met, 0, b)
  {
    if b == 0 {
    } else {
      var c := b - 1;
      Telescope(laid, met, open, c);
      var done := Gather(laid, 0, c);
      assert laid(c) + open(c + 1) == open(c) + met(c);
      Assoc(done, laid(c), open(b));
      Assoc(done, open(c), met(c));
    }
  }

  /** Conservation: read from left to right, nothing is lost, copied or reordered. */
  lemma ShiftConserves(lead: Comments, trail: Comments, los: set<nat>)
    ensures Gather(Laid(lead, trail, los), 0, Above(los)) + Rest(lead, trail, los)
            == Gather(All(lead, trail), 0, Limit(lead, trail))
  {
    var b := if Above(los) <= Limit(lead, trail) then Limit(lead, trail) else Above(los);
    var open := (c: nat) => Open(lead, trail, los, c);
    forall c: nat ensures Laid(lead, trail, los)(c) + open(c + 1) == open(c) + All(lead, trail)(c) {
      LayOne(lead, trail, los, c);
      assert Balanced(lead, trail, los, c);
    }
    Telescope(Laid(lead, trail, los), All(lead, trail), open, b);
    LaidBeyond(lead, trail, los, b);
    AllBeyond(lead, trail, los, b);
    NothingOwed(lead, trail, los, b);
  }

  lemma NothingOwed(lead: Comments, trail: Comments, los: set<nat>, b: nat)
    requires Above(los) <= b
    ensures Open(lead, trail, los, b) == Gather(Leftover(lead, trail, los), 0, b)
  {
    GatherNothing(Owed(lead, trail, los, b), 0, b);
  }

  lemma LaidBeyond(lead: Comments, trail: Comments, los: set<nat>, b: nat)
    requires Above(los) <= b
    ensures Gather(Laid(lead, trail, los), 0, b) == Gather(Laid(lead, trail, los), 0, Above(los))
  {
    GatherBeyond(Laid(lead, trail, los), 0, Above(los), b);
  }

  lemma AllBeyond(lead: Comments, trail: Comments, los: set<nat>, b: nat)
    requires Limit(lead, trail) <= b
    ensures Gather(All(lead, trail), 0, b) == Gather(All(lead, trail), 0, Limit(lead, trail))
    ensures Gather(Leftover(lead, trail, los), 0, b) == Rest(lead, trail, los)
  {
    GatherBeyond(All(lead, trail), 0, Limit(lead, trail), b);
    GatherBeyond(Leftover(lead, trail, los), 0, Limit(lead, trail), b);
  }

  // ---------------------------------------------------------------------------------------------------------
  // Running the pass twice
  // ---------------------------------------------------------------------------------------------------------

  lemma {:induction false} GatherPoint(f: nat -> seq<Comment>, q: nat, b: nat)
    requires q < b && forall p: nat :: p < b && p != q ==> f(p) == []
    ensures Gather(f, 0, b) == f(q)
  {
    GatherBeyond(f, 0, q + 1, b);
    GatherNothing(f, 0, q);
  }

  /** The first run leaves comments at no position whose home is further up. */
  lemma OnlyAtHome(lead: Comments, trail: Comments, los: set<nat>, hi: nat, lo: nat, p: nat)
    requires lo in los && (Homeless(los, hi) || Rest(lead, trail, los) == []) && p < lo
    ensures HomeAt(Shifted(lead, trail, los), map[hi := Rest(lead, trail, los)], los, lo, p) == []
  {
    if IsHome(los, p, lo) {
      assert p !in los;
      assert Get(map[hi := Rest(lead, trail, los)], p) == [];
    }
  }

  /** At a known start the second run finds the list of the first. */
  lemma SecondLeading(lead: Comments, trail: Comments, los: set<nat>, hi: nat, lo: nat)
    requires lo in los && (Homeless(los, hi) || Rest(lead, trail, los) == [])
    ensures Gathered(Shifted(lead, trail, los), map[hi := Rest(lead, trail, los)], los, lo)
            == Gathered(lead, trail, los, lo)
  {
    var first, behind := Shifted(lead, trail, los), map[hi := Rest(lead, trail, los)];
    var f := BelongsTo(first, behind, los, lo);
    forall p: nat | p < lo ensures f(p) == [] { OnlyAtHome(lead, trail, los, hi, lo, p); }
    assert f(lo) == first[lo] by {
      assert IsHome(los, lo, lo);
      assert Get(behind, lo) == [];
    }
    GatherPoint(f, lo, lo + 1);
  }

  lemma SecondTrailing(lead: Comments, trail: Comments, los: set<nat>, hi: nat)
    ensures Rest(Shifted(lead, trail, los), map[hi := Rest(lead, trail, los)], los)
            == if Homeless(los, hi) then Rest(lead, trail, los) else []
  {
    var first, behind := Shifted(lead, trail, los), map[hi := Rest(lead, trail, los)];
    var f := Leftover(first, behind, los);
    forall p: nat ensures f(p) == if p == hi && Homeless(los, p) then Rest(lead, trail, los) else [] {
      assert Homeless(los, p) ==> p !in first;
      assert Get(behind, p) == if p == hi then Rest(lead, trail, los) else [];
    }
    assert hi in behind;
    GatherPoint(f, hi, Limit(first, behind));
  }

  /**
   Running the pass a second time over the same spans changes nothing exactly when no comment lies above every known
   start, or the greatest known end does (which it also does when no span is known).
   */
  lemma {:induction false} SecondRunChangesNothingIff(lead: Comments, trail: Comments, spans: seq<Span>)
    ensures var los, hi := Los(spans), MaxHi(spans);
            var first, rest := Shifted(lead, trail, los), Rest(lead, trail, los);
            (Shifted(first, map[hi := rest], los) == first && Rest(first, map[hi := rest], los) == rest)
            <==> rest == [] || Homeless(los, hi)
  {
    var los, hi := Los(spans), MaxHi(spans);
    SecondTrailing(lead, trail, los, hi);
    if Rest(lead, trail, los) == [] || Homeless(los, hi) { SecondShift(lead, trail, los, hi); }
  }

  lemma SecondShift(lead: Comments, trail: Comments, los: set<nat>, hi: nat)
    requires Homeless(los, hi) || Rest(lead, trail, los) == []
    ensures Shifted(Shifted(lead, trail, los), map[hi := Rest(lead, trail, los)], los) == Shifted(lead, trail, los)
  {
    forall lo | lo in los
      ensures Gathered(Shifted(lead, trail, los), map[hi := Rest(lead, trail, los)], los, lo)
              == Gathered(lead, trail, los, lo)
    {
      SecondLeading(lead, trail, los, hi, lo);
    }
  }

  // ---------------------------------------------------------------------------------------------------------
  // Drained entries
  // ---------------------------------------------------------------------------------------------------------

  function Bp(e: Entry): (p: nat)
  {
    e.bp
  }

  function Lo(s: Span): (p: nat)
  {
    s.lo
  }

  function Flat(es: seq<Entry>): (cs: seq<Comment>)
  {
    if es == [] then [] else es[0].comments + Flat(es[1..])
  }

  function CommentsAt(es: seq<Entry>, p: nat): (cs: seq<Comment>)
  {
    Flat(WithKey(Bp, es, p))
  }

  function EntriesAt(es: seq<Entry>): nat -> seq<Comment>
  {
    (p: nat) => CommentsAt(es, p)
  }

  /** Each key of the map comes out once, with its list, in whatever order the map is drained. */
  ghost predicate Drains(m: Comments, es: seq<Entry>)
  {
    forall p: nat :: WithKey(Bp, es, p) == EntryOf(m, p)
  }

  /**
   The order in which the hash maps are drained does not matter: any two drains of the leading map followed by any
   two of the trailing map sort to the same entries.
   */
  lemma {:induction false} SortForgetsDrainOrder(
    lead: Comments, trail: Comments, a: seq<Entry>, b: seq<Entry>, c: seq<Entry>, d: seq<Entry>)
    requires Drains(lead, a) && Drains(lead, b) && Drains(trail, c) && Drains(trail, d)
    ensures SortByKey(Bp, a + c) == SortByKey(Bp, b + d)
  {
    SortIsStable(Bp, a + c);
    SortIsStable(Bp, b + d);
    forall p: nat ensures WithKey(Bp, SortByKey(Bp, a + c), p) == WithKey(Bp, SortByKey(Bp, b + d), p) {
      WithKeyConcat(Bp, a, c, p);
      WithKeyConcat(Bp, b, d, p);
    }
    StableSortIsUnique(Bp, SortByKey(Bp, a + c), SortByKey(Bp, b + d));
  }

  function EntryOf(m: Comments, p: nat): (es: seq<Entry>)
    ensures Flat(es) == Get(m, p)
  {
    if p in m then [Entry(p, m[p])] else []
  }

  lemma {:induction false} FlatConcat(a: seq<Entry>, b: seq<Entry>)
    ensures Flat(a + b) == Flat(a) + Flat(b)
  {
    if a == [] {
      assert a + b == b;
    } else {
      FlatConcat(a[1..], b);
      assert (a + b)[1..] == a[1..] + b;
      Assoc(a[0].comments, Flat(a[1..]), Flat(b));
    }
  }

  lemma {:induction false} DrainedAt(lead: Comments, trail: Comments, a: seq<Entry>, c: seq<Entry>, p: nat)
    requires Drains(lead, a) && Drains(trail, c)
    ensures Flat(WithKey(Bp, a + c, p)) == AtPos(lead, trail, p)
    ensures WithKey(Bp, a + c, p) != [] ==> p in lead || p in trail
  {
    WithKeyConcat(Bp, a, c, p);
    FlatConcat(EntryOf(lead, p), EntryOf(trail, p));
  }

  /** The sorted drain has exactly the comments of both maps at each position, leading before trailing. */
  lemma {:induction false} SortedDrain(lead: Comments, trail: Comments, a: seq<Entry>, c: seq<Entry>)
    requires Drains(lead, a) && Drains(trail, c)
    ensures var es := SortByKey(Bp, a + c);
            && Sorted(Bp, es)
            && (forall p: nat :: CommentsAt(es, p) == AtPos(lead, trail, p))
            && (forall i :: 0 <= i < |es| ==> es[i].bp < Limit(lead, trail))
  {
    var es := SortByKey(Bp, a + c);
    SortIsStable(Bp, a + c);
    forall p: nat ensures CommentsAt(es, p) == AtPos(lead, trail, p) {
      assert WithKey(Bp, es, p) == WithKey(Bp, a + c, p);
      DrainedAt(lead, trail, a, c, p);
    }
    forall i | 0 <= i < |es| ensures es[i].bp < Limit(lead, trail) {
      WithKeyFinds(Bp, es, i);
      assert WithKey(Bp, es, es[i].bp) == WithKey(Bp, a + c, es[i].bp);
      DrainedAt(lead, trail, a, c, es[i].bp);
    }
  }

  /** Where the entries above x start. */
  function PartitionPoint(es: seq<Entry>, x: nat): (cut: nat)
    ensures cut <= |es|
    ensures forall i :: 0 <= i < cut ==> es[i].bp <= x
    ensures Sorted(Bp, es) ==> forall i :: cut <= i < |es| ==> es[i].bp > x
  {
    if es == [] || es[0].bp > x then 0 else 1 + PartitionPoint(es[1..], x)
  }

  lemma {:induction false} NothingBelow(es: seq<Entry>, p: nat)
    requires forall i :: 0 <= i < |es| ==> es[i].bp != p
    ensures WithKey(Bp, es, p) == []
  {
    if es == [] {
    } else {
      NothingBelow(es[1..], p);
    }
  }

  /** The drained prefix, flattened, is what the entries have up to x; the rest has what is above. */
  lemma {:induction false} DrainPrefix(es: seq<Entry>, x: nat)
    requires Sorted(Bp, es)
    ensures var cut := PartitionPoint(es, x);
            && Flat(es[..cut]) == Gather(EntriesAt(es), 0, x + 1)
            && (forall p: nat :: CommentsAt(es[cut..], p) == if p <= x then [] else CommentsAt(es, p))
  {
    var cut := PartitionPoint(es, x);
    forall p: nat ensures CommentsAt(es[cut..], p) == if p <= x then [] else CommentsAt(es, p) {
      WithKeyAfter(es, x, p);
    }
    FlatPrefix(es, x);
  }

  lemma {:induction false} WithKeyAfter(es: seq<Entry>, x: nat, p: nat)
    requires Sorted(Bp, es)
    ensures WithKey(Bp, es[PartitionPoint(es, x)..], p) == if p <= x then [] else WithKey(Bp, es, p)
  {
    var cut := PartitionPoint(es, x);
    if p <= x {
      NothingBelow(es[cut..], p);
    } else {
      WithKeyPast(es, cut, p);
    }
  }

  lemma {:induction false} WithKeyPast(es: seq<Entry>, cut: nat, p: nat)
    requires cut <= |es| && forall i :: 0 <= i < cut ==> es[i].bp != p
    ensures WithKey(Bp, es[cut..], p) == WithKey(Bp, es, p)
    decreases cut
  {
    if cut == 0 {
      assert es[cut..] == es;
    } else {
      assert es[cut..] == es[1..][cut - 1..];
      WithKeyPast(es[1..], cut - 1, p);
    }
  }

  lemma {:induction false} FlatPrefix(es: seq<Entry>, x: nat)
    requires Sorted(Bp, es)
    ensures Flat(es[..PartitionPoint(es, x)]) == Gather(EntriesAt(es), 0, x + 1)
  {
    var cut := PartitionPoint(es, x);
    if cut == 0 {
      forall p: nat | p < x + 1 ensures CommentsAt(es, p) == [] { NothingBelow(es, p); }
      GatherNothing(EntriesAt(es), 0, x + 1);
    } else {
      FlatPrefix(es[1..], x);
      assert es[..cut][1..] == es[1..][..cut - 1];
      assert Flat(es[..cut]) == es[0].comments + Flat(es[1..][..cut - 1]);
      GatherHead(es, x);
    }
  }

  lemma {:induction false} GatherHead(es: seq<Entry>, x: nat)
    requires Sorted(Bp, es) && es != [] && es[0].bp <= x
    ensures Gather(EntriesAt(es), 0, x + 1) == es[0].comments + Gather(EntriesAt(es[1..]), 0, x + 1)
  {
    HeadFirst(es);
    GatherPrepend(EntriesAt(es[1..]), EntriesAt(es), es[0].comments, es[0].bp, x + 1);
  }

  lemma {:induction false} HeadFirst(es: seq<Entry>)
    requires Sorted(Bp, es) && es != []
    ensures var q := es[0].bp;
            && CommentsAt(es, q) == es[0].comments + CommentsAt(es[1..], q)
            && (forall p: nat :: p < q ==> CommentsAt(es, p) == [] && CommentsAt(es[1..], p) == [])
            && (forall p: nat :: p > q ==> CommentsAt(es, p) == CommentsAt(es[1..], p))
  {
    var q := es[0].bp;
    forall p: nat | p < q ensures CommentsAt(es, p) == [] && CommentsAt(es[1..], p) == [] {
      assert forall i :: 0 <= i < |es| ==> Bp(es[i]) >= q;
      NothingBelow(es, p);
      NothingBelow(es[1..], p);
    }
    assert WithKey(Bp, es, q) == [es[0]] + WithKey(Bp, es[1..], q);
  }

  // ---------------------------------------------------------------------------------------------------------
  // The pass
  // ---------------------------------------------------------------------------------------------------------

  predicate IsDummy(s: Span)
  {
    s.lo == 0 && s.hi == 0
  }

  /** The spans kept: neither the first one visited nor a dummy. */
  function Kept(visited: seq<Span>): (r: seq<Span>)
  {
    if visited == [] then []
    else
      var pre, last := visited[..|visited| - 1], visited[|visited| - 1];
      if pre == [] || IsDummy(last) then Kept(pre) else Kept(pre) + [last]
  }

  predicate IsKept(visited: seq<Span>, i: nat)
  {
    1 <= i < |visited| && !IsDummy(visited[i])
  }

  /** `ix` picks out the visits that are kept, all of them, in the order of the visit. */
  ghost predicate Picks(visited: seq<Span>, ix: seq<nat>)
  {
    && (forall k, m :: 0 <= k < m < |ix| ==> ix[k] < ix[m])
    && (forall i :: i in ix <==> IsKept(visited, i))
  }

  /** What is kept of a visit: all of it but the first span and the dummies, in order. */
  lemma {:induction false} KeptInOrder(visited: seq<Span>) returns (ix: seq<nat>)
    ensures Picks(visited, ix) && |Kept(visited)| == |ix|
    ensures forall k :: 0 <= k < |ix| ==> ix[k] < |visited| && Kept(visited)[k] == visited[ix[k]]
    decreases |visited|
  {
    if visited == [] {
      ix := [];
    } else {
      var n := |visited| - 1;
      var before := KeptInOrder(visited[..n]);
      PicksOneMore(visited, before);
      ix := if IsKept(visited, n) then before + [n] else before;
      forall k | 0 <= k < |before| ensures before[k] < n && visited[..n][before[k]] == visited[before[k]] {
        assert before[k] in before;
      }
    }
  }

  lemma PicksOneMore(visited: seq<Span>, ix: seq<nat>)
    requires visited != [] && Picks(visited[..|visited| - 1], ix)
    ensures var n := |visited| - 1; Picks(visited, if IsKept(visited, n) then ix + [n] else ix)
  {
    var n := |visited| - 1;
    forall i: nat | i < n ensures IsKept(visited, i) <==> IsKept(visited[..n], i) {}
    forall k | 0 <= k < |ix| ensures ix[k] < n { assert ix[k] in ix; }
  }

  /** The starts of the spans a visit keeps. */
  ghost function Starts(visited: seq<Span>): (los: set<nat>)
  {
    set i: nat | i < |visited| && IsKept(visited, i) :: visited[i].lo
  }

  /** `hi` is their greatest end, or 0, the end of the dummy span, when there are none. */
  ghost predicate GreatestEnd(visited: seq<Span>, hi: nat)
  {
    && (forall i: nat :: IsKept(visited, i) ==> visited[i].hi <= hi)
    && (hi == 0 || exists i: nat :: IsKept(visited, i) && visited[i].hi == hi)
  }

  /** A span is kept if and only if it was visited, not first, and is no dummy. */
  lemma {:induction false} KeptIff(visited: seq<Span>, s: Span)
    ensures s in Kept(visited) <==> exists i: nat :: IsKept(visited, i) && visited[i] == s
  {
    var ix := KeptInOrder(visited);
    if s in Kept(visited) {
      var k :| 0 <= k < |ix| && Kept(visited)[k] == s;
      assert ix[k] in ix;
    }
    if i: nat :| IsKept(visited, i) && visited[i] == s {
      assert i in ix;
      var k :| 0 <= k < |ix| && ix[k] == i;
      assert Kept(visited)[k] == s;
    }
  }

  lemma {:induction false} StartsAndEnd(visited: seq<Span>)
    ensures Los(Kept(visited)) == Starts(visited) && GreatestEnd(visited, MaxHi(Kept(visited)))
  {
    var kept := Kept(visited);
    forall i: nat | IsKept(visited, i) ensures visited[i] in kept { KeptIff(visited, visited[i]); }
    forall s | s in kept ensures exists i: nat :: IsKept(visited, i) && visited[i] == s { KeptIff(visited, s); }
    if kept != [] {
      var s :| s in kept && s.hi == MaxHi(kept);
      var i: nat :| IsKept(visited, i) && visited[i] == s;
      assert visited[i].hi == MaxHi(kept);
    }
  }

  /** The sorted entries `es` hold what the known starts `los` have not taken. */
  ghost predicate Pending(lead: Comments, trail: Comments, los: set<nat>, es: seq<Entry>)
  {
    && Sorted(Bp, es)
    && (forall i :: 0 <= i < |es| ==> es[i].bp < Limit(lead, trail))
    && (forall p: nat :: CommentsAt(es, p) == LeftAt(lead, trail, los, p))
  }

  /** What is left over at p once x is known too. */
  lemma LeftAfter(lead: Comments, trail: Comments, los: set<nat>, x: nat, p: nat)
    ensures LeftAt(lead, trail, los + {x}, p) == if p <= x then [] else LeftAt(lead, trail, los, p)
  {
    assert Homeless(los + {x}, p) <==> Homeless(los, p) && x < p;
  }

  lemma {:induction false} SuffixOrdered(es: seq<Entry>, cut: nat, b: nat)
    requires cut <= |es| && Sorted(Bp, es) && forall i :: 0 <= i < |es| ==> es[i].bp < b
    ensures Sorted(Bp, es[cut..]) && forall i :: 0 <= i < |es[cut..]| ==> es[cut..][i].bp < b
  {}

  /** One turn of the loop over the known starts, x being at or above all starts handled so far: what stays. */
  lemma {:induction false} PendingStep(lead: Comments, trail: Comments, los: set<nat>, x: nat, es: seq<Entry>)
    requires Pending(lead, trail, los, es)
    ensures Pending(lead, trail, los + {x}, es[PartitionPoint(es, x)..])
  {
    var cut := PartitionPoint(es, x);
    SuffixOrdered(es, cut, Limit(lead, trail));
    forall p: nat ensures CommentsAt(es[cut..], p) == LeftAt(lead, trail, los + {x}, p) {
      WithKeyAfter(es, x, p);
      LeftAfter(lead, trail, los, x, p);
      assert CommentsAt(es, p) == LeftAt(lead, trail, los, p);
    }
  }

  /** And what is taken. */
  lemma {:induction false} TakenAt(lead: Comments, trail: Comments, los: set<nat>, x: nat, es: seq<Entry>)
    requires Pending(lead, trail, los, es) && (forall l :: l in los ==> l <= x)
    ensures Flat(es[..PartitionPoint(es, x)])
            == if x in los then [] else Gathered(lead, trail, los + {x}, x)
  {
    FlatPrefix(es, x);
    if x in los {
      forall p: nat | p < x + 1 ensures CommentsAt(es, p) == [] {
        assert CommentsAt(es, p) == LeftAt(lead, trail, los, p);
      }
      GatherNothing(EntriesAt(es), 0, x + 1);
    } else {
      forall p: nat | p < x + 1 ensures CommentsAt(es, p) == HomeAt(lead, trail, los + {x}, x, p) {
        assert CommentsAt(es, p) == LeftAt(lead, trail, los, p);
        NewHome(los, x, p);
      }
      GatherSame(EntriesAt(es), BelongsTo(lead, trail, los + {x}, x), 0, x + 1);
    }
  }

  /** A start above all others takes in what had no home. */
  lemma NewHome(los: set<nat>, x: nat, p: nat)
    requires p <= x && forall l :: l in los ==> l < x
    ensures IsHome(los + {x}, p, x) <==> Homeless(los, p)
  {}

  /** A higher start takes nothing from a lower one. */
  lemma LowerStartsKeep(lead: Comments, trail: Comments, los: set<nat>, x: nat, lo: nat)
    requires lo in los && lo <= x
    ensures Gathered(lead, trail, los + {x}, lo) == Gathered(lead, trail, los, lo)
  {
    GatherSame(BelongsTo(lead, trail, los + {x}, lo), BelongsTo(lead, trail, los, lo), 0, lo + 1);
  }

  lemma {:induction false} ShiftStep(lead: Comments, trail: Comments, los: set<nat>, x: nat, es: seq<Entry>)
    requires Pending(lead, trail, los, es) && (forall l :: l in los ==> l <= x)
    ensures var before := Shifted(lead, trail, los);
            before[x := Get(before, x) + Flat(es[..PartitionPoint(es, x)])] == Shifted(lead, trail, los + {x})
  {
    TakenAt(lead, trail, los, x, es);
    var before, taken := Shifted(lead, trail, los), Flat(es[..PartitionPoint(es, x)]);
    if x in los {
      assert Get(before, x) + taken == before[x] by { assert taken == []; }
      assert before[x := before[x]] == before by { assert los + {x} == los; }
      assert los + {x} == los;
    } else {
      assert Get(before, x) + taken == taken;
      NewStart(lead, trail, los, x, taken);
    }
  }

  lemma NewStart(lead: Comments, trail: Comments, los: set<nat>, x: nat, taken: seq<Comment>)
    requires x !in los && (forall l :: l in los ==> l <= x)
    requires taken == Gathered(lead, trail, los + {x}, x)
    ensures Shifted(lead, trail, los)[x := taken] == Shifted(lead, trail, los + {x})
  {
    forall lo | lo in los ensures Gathered(lead, trail, los + {x}, lo) == Gathered(lead, trail, los, lo) {
      LowerStartsKeep(lead, trail, los, x, lo);
    }
    OneMoreEntry(Shifted(lead, trail, los), Shifted(lead, trail, los + {x}), x, taken);
  }

  lemma OneMoreEntry(m: Comments, n: Comments, x: nat, cs: seq<Comment>)
    requires n.Keys == m.Keys + {x} && n[x] == cs
    requires forall k :: k in m && k != x ==> n[k] == m[k]
    ensures m[x := cs] == n
  {
    assert m[x := cs].Keys == n.Keys;
  }

  lemma {:induction false} AllBelow(es: seq<Entry>, b: nat)
    requires forall i :: 0 <= i < |es| ==> es[i].bp <= b
    ensures PartitionPoint(es, b) == |es|
  {
    if es == [] {
    } else {
      AllBelow(es[1..], b);
    }
  }

  lemma {:induction false} FlatAll(es: seq<Entry>, b: nat)
    requires Sorted(Bp, es) && forall i :: 0 <= i < |es| ==> es[i].bp < b
    ensures Flat(es) == Gather(EntriesAt(es), 0, b + 1)
  {
    FlatPrefix(es, b);
    AllBelow(es, b);
    assert es[..|es|] == es;
  }

  lemma {:induction false} LeftoverIsRest(lead: Comments, trail: Comments, los: set<nat>, es: seq<Entry>)
    requires Pending(lead, trail, los, es)
    ensures Flat(es) == Rest(lead, trail, los)
  {
    var b := Limit(lead, trail);
    FlatAll(es, b);
    BeyondLimit(lead, trail, los);
    GatherSame(EntriesAt(es), Leftover(lead, trail, los), 0, b + 1);
  }

  lemma BeyondLimit(lead: Comments, trail: Comments, los: set<nat>)
    ensures Gather(Leftover(lead, trail, los), 0, Limit(lead, trail) + 1) == Rest(lead, trail, los)
  {
    AllBeyond(lead, trail, los, Limit(lead, trail) + 1);
  }

  lemma {:induction false} SortedSpans(spans: seq<Span>)
    ensures var r := SortByKey(Lo, spans);
            Sorted(Lo, r) && Los(r) == Los(spans) && MaxHi(r) == MaxHi(spans)
  {
    SortIsStable(Lo, spans);
    var r := SortByKey(Lo, spans);
    assert forall s :: s in r <==> s in multiset(r);
    assert forall s :: s in spans <==> s in multiset(spans);
  }

  class CommentsPreserver {
    const enabled: bool  // whether there is a comment store at all
    var isFirstSpan: bool
    var knownSpans: seq<Span>
    var leading: Comments
    var trailing: Comments

    constructor (enabled: bool, leading: Comments, trailing: Comments)
      ensures this.enabled == enabled && this.leading == leading && this.trailing == trailing
      ensures isFirstSpan && knownSpans == []
    {
      this.enabled, this.leading, this.trailing := enabled, leading, trailing;
      isFirstSpan, knownSpans := true, [];
    }

    method VisitSpan(span: Span)
      modifies `isFirstSpan, `knownSpans
      ensures !isFirstSpan
      ensures knownSpans == old(knownSpans) + if old(isFirstSpan) || IsDummy(span) then [] else [span]
    {
      if IsDummy(span) || isFirstSpan {
        isFirstSpan := false;
        return;
      }
      knownSpans := knownSpans + [span];
    }

    /** Take every list out of a map, in an arbitrary order. */
    method DrainMap(m: Comments) returns (es: seq<Entry>)
      ensures Drains(m, es)
    {
      es := [];
      var left := m.Keys;
      while left != {}
        invariant left <= m.Keys
        invariant forall p: nat :: WithKey(Bp, es, p) == if p in left then [] else EntryOf(m, p)
        decreases left
      {
        var k :| k in left;
        forall p: nat ensures WithKey(Bp, es + [Entry(k, m[k])], p) == if p in left - {k} then [] else EntryOf(m, p) {
          WithKeyConcat(Bp, es, [Entry(k, m[k])], p);
        }
        es := es + [Entry(k, m[k])];
        left := left - {k};
      }
    }

    method CollectExistingComments() returns (es: seq<Entry>)
      modifies `leading, `trailing
      ensures leading == map[] && trailing == map[]
      ensures Pending(old(leading), old(trailing), {}, es)
    {
      var a := DrainMap(leading);
      var c := DrainMap(trailing);
      SortedDrain(leading, trailing, a, c);
      leading, trailing := map[], map[];
      es := SortByKey(Bp, a + c);
    }

    method ShiftLeadingComments() returns (es: seq<Entry>)
      requires Sorted(Lo, knownSpans)
      modifies `leading, `trailing
      ensures leading == Shifted(old(leading), old(trailing), Los(knownSpans)) && trailing == map[]
      ensures Flat(es) == Rest(old(leading), old(trailing), Los(knownSpans))
    {
      ghost var lead, trail := leading, trailing;
      es := CollectExistingComments();
      var i := 0;
      while i < |knownSpans|
        invariant 0 <= i <= |knownSpans|
        invariant trailing == map[]
        invariant leading == Shifted(lead, trail, Los(knownSpans[..i]))
        invariant Pending(lead, trail, Los(knownSpans[..i]), es)
      {
        TakeOne(lead, trail, i, es);
        var cut := PartitionPoint(es, knownSpans[i].lo);
        leading := leading[knownSpans[i].lo := Get(leading, knownSpans[i].lo) + Flat(es[..cut])];
        es := es[cut..];
        i := i + 1;
      }
      assert knownSpans[..i] == knownSpans;
      LeftoverIsRest(lead, trail, Los(knownSpans), es);
    }

    lemma {:induction false} TakeOne(lead: Comments, trail: Comments, i: nat, es: seq<Entry>)
      requires i < |knownSpans| && Sorted(Lo, knownSpans)
      requires Pending(lead, trail, Los(knownSpans[..i]), es)
      ensures var x := knownSpans[i].lo;
              var before := Shifted(lead, trail, Los(knownSpans[..i]));
              && before[x := Get(before, x) + Flat(es[..PartitionPoint(es, x)])]
                 == Shifted(lead, trail, Los(knownSpans[..i + 1]))
              && Pending(lead, trail, Los(knownSpans[..i + 1]), es[PartitionPoint(es, x)..])
    {
      var x := knownSpans[i].lo;
      assert Los(knownSpans[..i + 1]) == Los(knownSpans[..i]) + {x};
      forall l | l in Los(knownSpans[..i]) ensures l <= x {
        var k :| 0 <= k < i && knownSpans[k].lo == l;
        assert Lo(knownSpans[k]) <= Lo(knownSpans[i]);
      }
      ShiftStep(lead, trail, Los(knownSpans[..i]), x, es);
      PendingStep(lead, trail, Los(knownSpans[..i]), x, es);
    }

    method ShiftTrailingComments(es: seq<Entry>)
      modifies `trailing
      ensures trailing == old(trailing)[MaxHi(knownSpans) := Get(old(trailing), MaxHi(knownSpans)) + Flat(es)]
    {
      var hi := MaxHi(knownSpans);
      trailing := trailing[hi := Get(trailing, hi) + Flat(es)];
    }

    method CollectSpans(visited: seq<Span>)
      requires isFirstSpan && knownSpans == []
      modifies `isFirstSpan, `knownSpans
      ensures knownSpans == Kept(visited)
      ensures forall s :: s in knownSpans <==> exists i: nat :: IsKept(visited, i) && visited[i] == s
    {
      var i := 0;
      while i < |visited|
        invariant 0 <= i <= |visited|
        invariant knownSpans == Kept(visited[..i]) && isFirstSpan == (i == 0)
      {
        assert visited[..i + 1][..i] == visited[..i];
        VisitSpan(visited[i]);
        i := i + 1;
      }
      assert visited[..i] == visited;
      forall s ensures s in knownSpans <==> exists i: nat :: IsKept(visited, i) && visited[i] == s {
        KeptIff(visited, s);
      }
    }

    method VisitModule(visited: seq<Span>)
      requires isFirstSpan && knownSpans == []
      modifies this
      ensures var los := Starts(visited);
              enabled ==>
                && leading == Shifted(old(leading), old(trailing), los)
                && exists hi: nat :: GreatestEnd(visited, hi)
                                     && trailing == map[hi := Rest(old(leading), old(trailing), los)]
      ensures !enabled ==> leading == old(leading) && trailing == old(trailing)
      ensures knownSpans == SortByKey(Lo, Kept(visited))
    {
      CollectSpans(visited);
      StartsAndEnd(visited);
      SortedSpans(knownSpans);
      knownSpans := SortByKey(Lo, knownSpans);
      if enabled {
        var rest := ShiftLeadingComments();
        ShiftTrailingComments(rest);
        assert [] + Flat(rest) == Flat(rest);
      }
    }
  }
}
