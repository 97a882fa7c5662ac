/** Merging recorded segments into the blocks of a timeline. */
module Timeline {

  /** Milliseconds; the source calls the constant gapToleranceSeconds. */
  const TOLERANCE: int := 5000

  datatype Interval = Interval(start: int, end: int)

  predicate Proper(s: seq<Interval>) {
    forall i :: 0 <= i < |s| ==> s[i].start <= s[i].end
  }

  predicate SortedByStart(s: seq<Interval>) {
    forall i, j :: 0 <= i < j < |s| ==> s[i].start <= s[j].start
  }

  // ------------------------------------------------------------------ what a timeline is

  /** Some segment starts before t and its end, with the tolerance, reaches t. */
  ghost predicate Reached(segs: seq<Interval>, t: int) {
    exists g :: g in segs && g.start < t <= g.end + TOLERANCE
  }

  predicate Inside(g: Interval, b: Interval) {
    b.start <= g.start && g.end <= b.end
  }

  ghost predicate Covered(g: Interval, blocks: seq<Interval>) {
    exists k :: 0 <= k < |blocks| && Inside(g, blocks[k])
  }

  /** Both ends of the block are ends of segments inside it. */
  ghost predicate Attained(segs: seq<Interval>, b: Interval) {
    && (exists g :: g in segs && g.start == b.start && Inside(g, b))
    && (exists g :: g in segs && g.end == b.end && Inside(g, b))
  }

  /** The canonical timeline of a set of segments: ordered blocks more than the tolerance apart that
      cover every segment, begin and end where segments do, and hide no larger gap. */
  ghost predicate Canonical(segs: seq<Interval>, blocks: seq<Interval>) {
    && (forall g {:trigger Covered(g, blocks)} :: g in segs ==> Covered(g, blocks))
    && (forall k {:trigger Attained(segs, blocks[k])} ::
          0 <= k < |blocks| ==> Attained(segs, blocks[k]))
    && (forall j, k :: 0 <= j < k < |blocks| ==> blocks[j].end + TOLERANCE < blocks[k].start)
    && (forall k, t :: 0 <= k < |blocks| && blocks[k].start < t <= blocks[k].end ==> Reached(segs, t))
  }

  // ------------------------------------------------------------------ uniqueness

  lemma Begins(segs: seq<Interval>, b: Interval) returns (g: Interval)
    requires Attained(segs, b)
    ensures g in segs && g.start == b.start && Inside(g, b)
  {
    g :| g in segs && g.start == b.start && Inside(g, b);
  }

  lemma Ends(segs: seq<Interval>, b: Interval) returns (g: Interval)
    requires Attained(segs, b)
    ensures g in segs && g.end == b.end && Inside(g, b)
  {
    g :| g in segs && g.end == b.end && Inside(g, b);
  }

  /** A segment that starts at or after block k of one timeline lies in some block from k on of the
      other, when the two agree before k. */
  lemma FindFrom(segs: seq<Interval>, a: seq<Interval>, b: seq<Interval>, k: nat, g: Interval)
      returns (j: nat)
    requires Proper(segs) && Canonical(segs, a) && Canonical(segs, b)
    requires k < |a| && k <= |b| && a[..k] == b[..k]
    requires g in segs && a[k].start <= g.start
    ensures k <= j < |b| && Inside(g, b[j])
  {
    assert Covered(g, b);
    j :| 0 <= j < |b| && Inside(g, b[j]);
    forall i | 0 <= i < k
      ensures b[i].end < a[k].start
    {
      assert b[..k][i] == a[..k][i];
      assert a[i].end + TOLERANCE < a[k].start;
    }
    var n :| 0 <= n < |segs| && segs[n] == g;
  }

  lemma StartNotLater(segs: seq<Interval>, a: seq<Interval>, b: seq<Interval>, k: nat)
    requires Proper(segs) && Canonical(segs, a) && Canonical(segs, b)
    requires k < |a| && k <= |b| && a[..k] == b[..k]
    ensures k < |b| && b[k].start <= a[k].start
  {
    assert Attained(segs, a[k]);
    var g := Begins(segs, a[k]);
    var j := FindFrom(segs, a, b, k, g);
    if k < j {
      BlockProper(segs, b, k);
      assert b[k].end + TOLERANCE < b[j].start;
    }
  }

  lemma BlockProper(segs: seq<Interval>, b: seq<Interval>, k: nat)
    requires Proper(segs) && Canonical(segs, b) && k < |b|
    ensures b[k].start <= b[k].end
  {
    assert Attained(segs, b[k]);
    var g := Begins(segs, b[k]);
    var i :| 0 <= i < |segs| && segs[i] == g;
  }

  /** Block starts do not decrease. */
  lemma StartsOrdered(segs: seq<Interval>, b: seq<Interval>, i: nat, j: nat)
    requires Proper(segs) && Canonical(segs, b) && i <= j < |b|
    ensures b[i].start <= b[j].start
  {
    BlockProper(segs, b, i);
  }

  /** A segment that starts before block k + 1 ends by the end of block k. */
  lemma EndsByBlock(segs: seq<Interval>, b: seq<Interval>, k: nat, h: Interval)
    requires Proper(segs) && Canonical(segs, b) && k + 1 < |b|
    requires h in segs && h.start < b[k + 1].start
    ensures h.end <= b[k].end
  {
    assert Covered(h, b);
    var i :| 0 <= i < |b| && Inside(h, b[i]);
    if k < i {
      StartsOrdered(segs, b, k + 1, i);
    } else if i < k {
      BlockProper(segs, b, k);
    }
  }

  /** No later block of b starts inside block k of a: its start would be a gap that a hides. */
  lemma StartsOutside(segs: seq<Interval>, a: seq<Interval>, b: seq<Interval>, k: nat)
    requires Proper(segs) && Canonical(segs, a) && Canonical(segs, b)
    requires k < |a| && k + 1 < |b| && a[k].start <= b[k].start
    ensures a[k].end < b[k + 1].start
  {
    var t := b[k + 1].start;
    BlockProper(segs, b, k);
    if t <= a[k].end {
      assert Reached(segs, t);
      var h :| h in segs && h.start < t <= h.end + TOLERANCE;
      EndsByBlock(segs, b, k, h);
    }
  }

  lemma EndNotEarlier(segs: seq<Interval>, a: seq<Interval>, b: seq<Interval>, k: nat)
    requires Proper(segs) && Canonical(segs, a) && Canonical(segs, b)
    requires k < |a| && k < |b| && a[..k] == b[..k] && a[k].start == b[k].start
    ensures a[k].end <= b[k].end
  {
    assert Attained(segs, a[k]);
    var g := Ends(segs, a[k]);
    var n :| 0 <= n < |segs| && segs[n] == g;
    if k + 1 < |b| {
      StartsOutside(segs, a, b, k);
      EndsByBlock(segs, b, k, g);
    } else {
      var j := FindFrom(segs, a, b, k, g);
    }
  }

  lemma {:induction false} AgreeUpTo(segs: seq<Interval>, a: seq<Interval>, b: seq<Interval>, k: nat)
    requires Proper(segs) && Canonical(segs, a) && Canonical(segs, b)
    requires k <= |a| && k <= |b| && a[..k] == b[..k]
    ensures a == b
    decreases |a| - k
  {
    if k == |a| {
      if k < |b| {
        StartNotLater(segs, b, a, k);
      }
      assert a[..k] == a && b[..k] == b;
    } else {
      StartNotLater(segs, a, b, k);
      StartNotLater(segs, b, a, k);
      EndNotEarlier(segs, a, b, k);
      EndNotEarlier(segs, b, a, k);
      assert a[k] == b[k];
      assert a[..k + 1] == a[..k] + [a[k]] && b[..k + 1] == b[..k] + [b[k]];
      AgreeUpTo(segs, a, b, k + 1);
    }
  }

  /** A set of segments has at most one canonical timeline. */
  lemma CanonicalIsUnique(segs: seq<Interval>, a: seq<Interval>, b: seq<Interval>)
    requires Proper(segs) && Canonical(segs, a) && Canonical(segs, b)
    ensures a == b
  {
    AgreeUpTo(segs, a, b, 0);
  }

  // ------------------------------------------------------------------ the merge computes it

  function Extended(cur: Interval, g: Interval): Interval {
    if g.end > cur.end then Interval(cur.start, g.end) else cur
  }

  /** The loop's result from the current block and the segments left. */
  function Merge(cur: Interval, rest: seq<Interval>): seq<Interval>
    decreases |rest|
  {
    if rest == [] then [cur]
    else if rest[0].start <= cur.end + TOLERANCE then Merge(Extended(cur, rest[0]), rest[1..])
    else [cur] + Merge(rest[0], rest[1..])
  }

  function MergeAll(s: seq<Interval>): seq<Interval> {
    if s == [] then [] else Merge(s[0], s[1..])
  }

  lemma MergeNext(cur: Interval, s: seq<Interval>, i: nat)
    requires i < |s|
    ensures Merge(cur, s[i..])
            == if s[i].start <= cur.end + TOLERANCE then Merge(Extended(cur, s[i]), s[i + 1..])
               else [cur] + Merge(s[i], s[i + 1..])
  {
    assert s[i..][0] == s[i] && s[i..][1..] == s[i + 1..];
  }

  lemma MergeEnd(cur: Interval, rest: seq<Interval>)
    requires rest == []
    ensures Merge(cur, rest) == [cur]
  {
  }

  lemma Regroup(done: seq<Interval>, cur: Interval, rest: seq<Interval>)
    ensures done + ([cur] + rest) == done + [cur] + rest
  {
  }

  lemma Extend(done: seq<Interval>, cur: Interval, g: Interval)
    requires Proper(done) && Canonical(done, [cur]) && g.start <= g.end
    requires cur.start <= g.start <= cur.end + TOLERANCE
    ensures Canonical(done + [g], [Extended(cur, g)])
  {
    var segs := done + [g];
    var e := Extended(cur, g);
    assert g in segs && forall h :: h in done ==> h in segs;
    forall h | h in segs
      ensures Covered(h, [e])
    {
      if h in done {
        assert Covered(h, [cur]);
        assert Inside(h, cur);
      }
      assert Inside(h, [e][0]);
    }
    assert Attained(done, [cur][0]);
    var first := Begins(done, cur);
    assert first in segs && first.start == e.start && Inside(first, e);
    if e.end == cur.end {
      var last := Ends(done, cur);
      assert last in segs && last.end == e.end && Inside(last, e);
    } else {
      assert g in segs && g.end == e.end && Inside(g, e);
    }
    forall t | e.start < t <= e.end
      ensures Reached(segs, t)
    {
      ReachedAfterExtend(done, cur, g, t);
    }
  }

  lemma ReachedAfterExtend(done: seq<Interval>, cur: Interval, g: Interval, t: int)
    requires Proper(done) && Canonical(done, [cur]) && g.start <= cur.end + TOLERANCE
    requires cur.start < t <= Extended(cur, g).end
    ensures Reached(done + [g], t)
  {
    var h: Interval;
    if t <= cur.end {
      assert [cur][0].start < t <= [cur][0].end;
      assert Reached(done, t);
      h :| h in done && h.start < t <= h.end + TOLERANCE;
    } else if g.start < t {
      h := g;
    } else {
      assert Attained(done, [cur][0]);
      h := Ends(done, cur);
      var n :| 0 <= n < |done| && done[n] == h;
    }
    assert h in done + [g];
  }

  lemma PrependCovers(done: seq<Interval>, cur: Interval, rest: seq<Interval>, blocks: seq<Interval>,
                      g: Interval)
    requires Canonical(done, [cur]) && Canonical(rest, blocks) && g in done + rest
    ensures Covered(g, [cur] + blocks)
  {
    var all := [cur] + blocks;
    if g in done {
      assert Covered(g, [cur]);
      assert Inside(g, all[0]);
    } else {
      assert Covered(g, blocks);
      var k :| 0 <= k < |blocks| && Inside(g, blocks[k]);
      assert all[k + 1] == blocks[k];
    }
  }

  lemma PrependApart(cur: Interval, rest: seq<Interval>, blocks: seq<Interval>, k: nat)
    requires Canonical(rest, blocks) && k < |blocks|
    requires forall g :: g in rest ==> cur.end + TOLERANCE < g.start
    ensures cur.end + TOLERANCE < blocks[k].start
  {
    assert Attained(rest, blocks[k]);
    var g := Begins(rest, blocks[k]);
  }

  lemma MoreReached(some: seq<Interval>, more: seq<Interval>, t: int)
    requires Reached(some, t) && forall g :: g in some ==> g in more
    ensures Reached(more, t)
  {
    var h :| h in some && h.start < t <= h.end + TOLERANCE;
    assert h in more;
  }

  /** A block and a later timeline, more than the tolerance apart, make one timeline. */
  lemma Prepend(done: seq<Interval>, cur: Interval, rest: seq<Interval>, blocks: seq<Interval>)
    requires Canonical(done, [cur]) && Canonical(rest, blocks)
    requires forall g :: g in rest ==> cur.end + TOLERANCE < g.start
    ensures Canonical(done + rest, [cur] + blocks)
  {
    var segs := done + rest;
    var all := [cur] + blocks;
    forall g {:trigger Covered(g, all)} | g in segs
      ensures Covered(g, all)
    {
      PrependCovers(done, cur, rest, blocks, g);
    }
    forall k {:trigger Attained(segs, all[k])} | 0 <= k < |all|
      ensures Attained(segs, all[k])
    {
      if k == 0 {
        assert Attained(done, [cur][0]);
        MoreSegments(done, segs, cur);
      } else {
        assert Attained(rest, blocks[k - 1]);
        MoreSegments(rest, segs, blocks[k - 1]);
      }
    }
    forall j, k | 0 <= j < k < |all|
      ensures all[j].end + TOLERANCE < all[k].start
    {
      PrependApart(cur, rest, blocks, k - 1);
      assert all[k] == blocks[k - 1] && (j > 0 ==> all[j] == blocks[j - 1]);
    }
    forall k, t | 0 <= k < |all| && all[k].start < t <= all[k].end
      ensures Reached(segs, t)
    {
      if k == 0 {
        assert [cur][0].start < t <= [cur][0].end;
        MoreReached(done, segs, t);
      } else {
        assert all[k] == blocks[k - 1];
        MoreReached(rest, segs, t);
      }
    }
  }

  lemma MoreSegments(some: seq<Interval>, more: seq<Interval>, b: Interval)
    requires Attained(some, b) && forall g :: g in some ==> g in more
    ensures Attained(more, b)
  {
    var g := Begins(some, b);
    var h := Ends(some, b);
    assert g in more && h in more;
  }

  lemma Single(g: Interval)
    requires g.start <= g.end
    ensures Canonical([g], [g])
  {
    assert Inside(g, [g][0]) && g in [g];
    forall t | g.start < t <= g.end
      ensures Reached([g], t)
    {
      assert g in [g];
    }
  }

  lemma {:induction false} MergeIsCanonical(done: seq<Interval>, cur: Interval, rest: seq<Interval>)
    requires Proper(done) && Canonical(done, [cur]) && Proper(rest) && SortedByStart(rest)
    requires forall i :: 0 <= i < |rest| ==> cur.start <= rest[i].start
    ensures Canonical(done + rest, Merge(cur, rest))
    decreases |rest|
  {
    if rest == [] {
      assert done + rest == done;
    } else {
      var g := rest[0];
      assert done + rest == done + [g] + rest[1..];
      if g.start <= cur.end + TOLERANCE {
        Extend(done, cur, g);
        MergeIsCanonical(done + [g], Extended(cur, g), rest[1..]);
      } else {
        Single(g);
        MergeIsCanonical([g], g, rest[1..]);
        assert [g] + rest[1..] == rest;
        Prepend(done, cur, rest, Merge(g, rest[1..]));
      }
    }
  }

  /** On sorted segments the merge computes the canonical timeline. */
  lemma MergeAllIsCanonical(s: seq<Interval>)
    requires Proper(s) && SortedByStart(s)
    ensures Canonical(s, MergeAll(s))
  {
    if s != [] {
      Single(s[0]);
      MergeIsCanonical([s[0]], s[0], s[1..]);
      assert [s[0]] + s[1..] == s;
    }
  }

  /** A timeline depends only on which segments there are. */
  lemma SameSegments(s: seq<Interval>, t: seq<Interval>, blocks: seq<Interval>)
    requires forall g :: g in s <==> g in t
    requires Canonical(s, blocks)
    ensures Canonical(t, blocks)
  {
    forall k | 0 <= k < |blocks|
      ensures Attained(t, blocks[k])
    {
      MoreSegments(s, t, blocks[k]);
    }
    forall k, x | 0 <= k < |blocks| && blocks[k].start < x <= blocks[k].end
      ensures Reached(t, x)
    {
      assert Reached(s, x);
      var g :| g in s && g.start < x <= g.end + TOLERANCE;
      assert g in t;
    }
  }

  lemma SameMultiset(s: seq<Interval>, t: seq<Interval>)
    requires multiset(s) == multiset(t)
    ensures forall g :: g in s <==> g in t
  {
    forall g
      ensures g in s <==> g in t
    {
      assert g in s <==> g in multiset(s);
      assert g in t <==> g in multiset(t);
    }
  }

  /** Neither the order of the input nor the way the sort breaks ties can show: any two sorted
      arrangements of the same segments merge to the same blocks. */
  lemma OrderIsIrrelevant(s: seq<Interval>, t: seq<Interval>)
    requires Proper(s) && Proper(t) && SortedByStart(s) && SortedByStart(t)
    requires multiset(s) == multiset(t)
    ensures MergeAll(s) == MergeAll(t)
  {
    MergeAllIsCanonical(s);
    MergeAllIsCanonical(t);
    SameMultiset(s, t);
    SameSegments(t, s, MergeAll(t));
    CanonicalIsUnique(s, MergeAll(s), MergeAll(t));
  }

  /** Two recordings share a block exactly when at most five seconds lie between them. */
  lemma TwoSegments(a: Interval, b: Interval)
    requires a.start <= a.end && a.start <= b.start <= b.end
    ensures MergeAll([a, b])
            == if b.start - a.end <= 5000
               then [Interval(a.start, if a.end < b.end then b.end else a.end)] else [a, b]
  {
    assert [a, b][1..] == [b] && [b][1..] == [];
    assert Merge(b, []) == [b] && Merge(Extended(a, b), []) == [Extended(a, b)];
    assert [a] + [b] == [a, b];
  }

  /** Merging the blocks again changes nothing. */
  lemma MergeIsIdempotent(s: seq<Interval>)
    requires Proper(s) && SortedByStart(s)
    ensures MergeAll(MergeAll(s)) == MergeAll(s)
  {
    var blocks := MergeAll(s);
    MergeAllIsCanonical(s);
    forall k | 0 <= k < |blocks|
      ensures blocks[k].start <= blocks[k].end
    {
      BlockProper(s, blocks, k);
    }
    BlocksAreCanonical(blocks);
    MergeAllIsCanonical(blocks);
    CanonicalIsUnique(blocks, MergeAll(blocks), blocks);
  }

  lemma BlocksAreCanonical(blocks: seq<Interval>)
    requires Proper(blocks)
    requires forall j, k :: 0 <= j < k < |blocks| ==> blocks[j].end + TOLERANCE < blocks[k].start
    ensures Canonical(blocks, blocks) && SortedByStart(blocks)
  {
    forall g {:trigger Covered(g, blocks)} | g in blocks
      ensures Covered(g, blocks)
    {
      var k :| 0 <= k < |blocks| && blocks[k] == g;
      assert Inside(g, blocks[k]);
    }
    forall k {:trigger Attained(blocks, blocks[k])} | 0 <= k < |blocks|
      ensures Attained(blocks, blocks[k])
    {
      var b := blocks[k];
      assert b in blocks && Inside(b, b);
    }
    forall k, t | 0 <= k < |blocks| && blocks[k].start < t <= blocks[k].end
      ensures Reached(blocks, t)
    {
      var b := blocks[k];
      assert b in blocks && b.start < t <= b.end + TOLERANCE;
    }
  }

  // ------------------------------------------------------------------ seconds

  /** Go's integer division by 1000. */
  function Div1000(x: int): int {
    if x >= 0 then x / 1000 else -((-x) / 1000)
  }

  /** It truncates toward zero. */
  lemma Div1000Truncates(x: int)
    ensures Div1000(-x) == -Div1000(x)
    ensures x >= 0 ==> Div1000(x) * 1000 <= x < Div1000(x) * 1000 + 1000
  {
  }

  function Seconds(b: Interval): Interval {
    Interval(Div1000(b.start) + 1, Div1000(b.end))
  }

  function AllSeconds(bs: seq<Interval>): (ss: seq<Interval>)
    ensures |ss| == |bs|
  {
    seq(|bs|, i requires 0 <= i < |bs| => Seconds(bs[i]))
  }

  lemma SecondsSnoc(bs: seq<Interval>, b: Interval)
    ensures AllSeconds(bs + [b]) == AllSeconds(bs) + [Seconds(b)]
  {
  }

  /** A converted block is exactly the whole seconds after its start and up to its end; so it is
      empty exactly when there are none, which takes a block of less than a second. */
  lemma SecondsAreWholeSeconds(b: Interval)
    requires 0 <= b.start <= b.end
    ensures forall t: int :: Seconds(b).start <= t <= Seconds(b).end <==> b.start < 1000 * t <= b.end
    ensures Seconds(b).start > Seconds(b).end ==> b.end - b.start < 1000
  {
  }

  /** Converted blocks of a timeline stay ordered, and at least five whole seconds apart. */
  lemma SecondsStayApart(segs: seq<Interval>, blocks: seq<Interval>, j: nat, k: nat)
    requires Proper(segs) && Canonical(segs, blocks) && j < k < |blocks| && 0 <= blocks[j].start
    ensures AllSeconds(blocks)[j].end + 5 < AllSeconds(blocks)[k].start
  {
    BlockProper(segs, blocks, j);
    assert blocks[j].end + TOLERANCE < blocks[k].start;
  }

  // ------------------------------------------------------------------ the service function

  class TimeRange {
    var startTime: int
    var endTime: int

    constructor (startTime: int, endTime: int)
      ensures View() == Interval(startTime, endTime)
    {
      this.startTime := startTime;
      this.endTime := endTime;
    }

    function View(): Interval
      reads this
    {
      Interval(startTime, endTime)
    }

    method ConvertToSeconds()
      modifies this
      ensures View() == Seconds(old(View()))
    {
      startTime := Div1000(startTime) + 1;
      endTime := Div1000(endTime);
    }
  }

  function Insert(g: Interval, s: seq<Interval>): seq<Interval> {
    if s == [] || g.start <= s[0].start then [g] + s else [s[0]] + Insert(g, s[1..])
  }

  lemma {:induction false} InsertMembers(g: Interval, s: seq<Interval>)
    ensures multiset(Insert(g, s)) == multiset(s) + multiset{g}
  {
    if s != [] && g.start > s[0].start {
      assert s == [s[0]] + s[1..];
      InsertMembers(g, s[1..]);
    }
  }

  lemma {:induction false} InsertSorts(g: Interval, s: seq<Interval>)
    requires SortedByStart(s)
    ensures SortedByStart(Insert(g, s))
  {
    if s != [] && g.start > s[0].start {
      InsertSorts(g, s[1..]);
      InsertMembers(g, s[1..]);
      var rest := Insert(g, s[1..]);
      forall i | 0 <= i < |rest|
        ensures s[0].start <= rest[i].start
      {
        assert rest[i] in multiset(rest);
        assert rest[i] == g || rest[i] in s[1..];
      }
    }
  }

  /** Stands for Go's sort.Slice with the less-than on start times. Nothing is promised about the
      order of equal starts. */
  method SortByStart(a: array<Interval>)
    modifies a
    ensures SortedByStart(a[..]) && multiset(a[..]) == multiset(old(a[..]))
  {
    hide Insert;
    var s: seq<Interval> := [];
    var i := 0;
    while i < a.Length
      invariant 0 <= i <= a.Length && a[..] == old(a[..])
      invariant SortedByStart(s) && multiset(s) == multiset(a[..i]) && |s| == i
    {
      InsertSorts(a[i], s);
      InsertMembers(a[i], s);
      assert a[..i + 1] == a[..i] + [a[i]];
      s := Insert(a[i], s);
      assert |multiset(s)| == |s|;
      assert |multiset(a[..i + 1])| == i + 1;
      i := i + 1;
    }
    assert a[..a.Length] == a[..];
    forall k | 0 <= k < a.Length {
      a[k] := s[k];
    }
    assert a[..] == s;
  }

  /** The timeline of any segments, sorted in place: the blocks are the seconds of the one canonical
      timeline of the segments handed in. */
  method SegmentsToTimeline(segments: array<Interval>)
      returns (blocks: seq<Interval>, ghost ms: seq<Interval>)
    modifies segments
    ensures multiset(segments[..]) == multiset(old(segments[..])) && SortedByStart(segments[..])
    ensures ms == MergeAll(segments[..]) && blocks == AllSeconds(ms)
    ensures Proper(old(segments[..])) ==> Canonical(old(segments[..]), ms)
  {
    hide Merge, Seconds;
    var limit := segments.Length;
    if limit == 0 {
      assert segments[..] == [];
      return [], [];
    }
    SortByStart(segments);
    ghost var s := segments[..];
    ms := MergeAll(s);
    blocks := [];
    var currentBlock := new TimeRange(segments[0].start, segments[0].end);
    ghost var finished: seq<Interval> := [];
    var i := 1;
    while i < limit
      invariant 1 <= i <= limit && segments[..] == s && fresh(currentBlock)
      invariant blocks == AllSeconds(finished)
      invariant ms == finished + Merge(currentBlock.View(), s[i..])
    {
      var seg := segments[i];
      ghost var cur := currentBlock.View();
      MergeNext(cur, s, i);
      if seg.start <= currentBlock.endTime + TOLERANCE {
        if seg.end > currentBlock.endTime {
          currentBlock.endTime := seg.end;
        }
        assert currentBlock.View() == Extended(cur, seg);
      } else {
        SecondsSnoc(finished, cur);
        Regroup(finished, cur, Merge(seg, s[i + 1..]));
        finished := finished + [cur];
        currentBlock.ConvertToSeconds();
        blocks := blocks + [currentBlock.View()];
        currentBlock := new TimeRange(seg.start, seg.end);
      }
      i := i + 1;
    }
    MergeEnd(currentBlock.View(), s[limit..]);
    SecondsSnoc(finished, currentBlock.View());
    currentBlock.ConvertToSeconds();
    blocks := blocks + [currentBlock.View()];
    if Proper(old(segments[..])) {
      SortedTimeline(old(segments[..]), s);
    }
  }

  /** Merging a sorted arrangement of some segments gives those segments' canonical timeline. */
  lemma SortedTimeline(segs: seq<Interval>, s: seq<Interval>)
    requires Proper(segs) && SortedByStart(s) && multiset(s) == multiset(segs)
    ensures Canonical(segs, MergeAll(s))
  {
    SameMultiset(s, segs);
    ProperMembers(segs, s);
    MergeAllIsCanonical(s);
    SameSegments(s, segs, MergeAll(s));
  }

  lemma ProperMembers(s: seq<Interval>, t: seq<Interval>)
    requires Proper(s) && forall g :: g in t ==> g in s
    ensures Proper(t)
  {
    forall i | 0 <= i < |t|
      ensures t[i].start <= t[i].end
    {
      assert t[i] in s;
    }
  }
}
