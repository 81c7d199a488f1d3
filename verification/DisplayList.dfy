/** The list of windows on screen (display.c): a doubly linked list guarded by one lock. Every method body runs
    under that lock. */
module DisplayList {

  // ---- where a window lands on the panel ----

  const WORD := 0x1_0000_0000

  type Word = n: int | 0 <= n < WORD

  datatype Rect = Rect(x: Word, y: Word, w: Word, h: Word)

  datatype Mapping = Mapped(rect: Rect) | NoMapping

  /** map_the_window, in unsigned arithmetic. */
  function MapWindow(angle: int, panelW: Word, panelH: Word, r: Rect): Mapping {
    if angle == 0 then Mapped(r)
    else if angle == 90 then Mapped(Rect((panelW - r.y - r.h) % WORD, r.x, r.h, r.w))
    else if angle == 270 then Mapped(Rect(r.y, (panelH - r.x - r.w) % WORD, r.h, r.w))
    else NoMapping
  }

  predicate Within(r: Rect, w: int, h: int) {
    r.x + r.w <= w && r.y + r.h <= h
  }

  predicate Apart(a: Rect, b: Rect) {
    a.x + a.w <= b.x || b.x + b.w <= a.x || a.y + a.h <= b.y || b.y + b.h <= a.y
  }

  /** A rotated window lies on the panel exactly when the window lies on the rotated panel, wrap-around included. */
  lemma MapFits(angle: int, panelW: Word, panelH: Word, r: Rect)
    requires angle == 90 || angle == 270
    ensures Within(MapWindow(angle, panelW, panelH, r).rect, panelW, panelH) <==> Within(r, panelH, panelW)
  {
    if angle == 90 {
      Wraps(panelW - r.y - r.h);
    } else {
      Wraps(panelH - r.x - r.w);
    }
  }

  lemma Wraps(a: int)
    requires -2 * WORD < a < WORD
    ensures a % WORD == if a >= 0 then a else if a >= -WORD then a + WORD else a + 2 * WORD
  {
  }

  /** Rotation keeps windows that do not overlap apart. */
  lemma MapKeepsApart(angle: int, panelW: Word, panelH: Word, a: Rect, b: Rect)
    requires MapWindow(angle, panelW, panelH, a).Mapped? && MapWindow(angle, panelW, panelH, b).Mapped?
    requires angle != 0 ==> Within(a, panelH, panelW) && Within(b, panelH, panelW)
    ensures Apart(MapWindow(angle, panelW, panelH, a).rect, MapWindow(angle, panelW, panelH, b).rect) <==> Apart(a, b)
  {
    if angle == 90 {
      Wraps(panelW - a.y - a.h);
      Wraps(panelW - b.y - b.h);
    } else if angle == 270 {
      Wraps(panelH - a.x - a.w);
      Wraps(panelH - b.x - b.w);
    }
  }

  predicate Covers(r: Rect, x: int, y: int) {
    r.x <= x < r.x + r.w && r.y <= y < r.y + r.h
  }

  /** Which way the picture turns, pixel by pixel: at 90 a window's pixel (x, y) is shown y columns from the right edge
      and x rows down, at 270 y columns from the left and x rows from the bottom. */
  lemma MapTurnsPixels(panelW: Word, panelH: Word, r: Rect, x: int, y: int)
    requires Within(r, panelH, panelW)
    ensures Covers(MapWindow(90, panelW, panelH, r).rect, panelW - 1 - y, x) <==> Covers(r, x, y)
    ensures Covers(MapWindow(270, panelW, panelH, r).rect, y, panelH - 1 - x) <==> Covers(r, x, y)
  {
    Wraps(panelW - r.y - r.h);
    Wraps(panelH - r.x - r.w);
  }

  /** The corner (0, 0) lands in the top right corner of the panel at 90 and in the bottom left one at 270; turning by
      90 and back by 270 on the turned panel is where one began. */
  lemma CornersAndBack(panelW: Word, panelH: Word, r: Rect)
    requires 0 < panelW && 0 < panelH && Within(r, panelH, panelW)
    ensures r.w == r.h == 1 && r.x == r.y == 0 ==>
            && MapWindow(90, panelW, panelH, r) == Mapped(Rect(panelW - 1, 0, 1, 1))
            && MapWindow(270, panelW, panelH, r) == Mapped(Rect(0, panelH - 1, 1, 1))
    ensures MapWindow(270, panelH, panelW, MapWindow(90, panelW, panelH, r).rect) == Mapped(r)
    ensures MapWindow(0, panelW, panelH, r) == Mapped(r)
  {
    Wraps(panelW - r.y - r.h);
    Wraps(panelH - r.x - r.w);
  }

  /** Which rotations show anything: with flipping an upright panel shows no window at all. */
  lemma ShownExactly(rotation: int, flip: bool, panelW: Word, panelH: Word, r: Rect)
    requires rotation in {0, 90, 180, 270}
    ensures MapWindow(if flip then (rotation + 180) % 360 else rotation, panelW, panelH, r).Mapped? <==>
            rotation != if flip then 0 else 180
  {
  }

  // ---- what the list means ----

  /** The positions in list order, and how many windows the screen layout has. */
  datatype Layout = Layout(positions: seq<int>, windows: nat)

  /** Operations: show a frame in a window, which may fail to create it, take a window off, and the two critical
      sections of a change of layout. */
  datatype Op = Show(position: int, ok: bool) | Shield(position: int) | Clear | Install(windows: nat)

  function RemoveFirst(ps: seq<int>, p: int): seq<int> {
    if ps == [] then []
    else if ps[0] == p then ps[1..]
    else [ps[0]] + RemoveFirst(ps[1..], p)
  }

  function Next(s: Layout, op: Op): Layout {
    match op
    case Show(p, ok) =>
      if p < 0 || p >= s.windows || p in s.positions || !ok then s else s.(positions := s.positions + [p])
    case Shield(p) => s.(positions := RemoveFirst(s.positions, p))
    case Clear => Layout([], 0)
    case Install(n) => s.(windows := n)
  }

  function After(ops: seq<Op>): Layout {
    if ops == [] then Layout([], 0) else Next(After(ops[..|ops| - 1]), ops[|ops| - 1])
  }

  predicate Distinct(ps: seq<int>) {
    forall i, j :: 0 <= i < j < |ps| ==> ps[i] != ps[j]
  }

  lemma {:induction false} RemoveFirstKeeps(ps: seq<int>, p: int)
    requires Distinct(ps)
    ensures Distinct(RemoveFirst(ps, p))
    ensures forall q :: q in RemoveFirst(ps, p) <==> q in ps && q != p
  {
    if ps != [] {
      var rest := ps[1..];
      assert forall i :: 0 <= i < |rest| ==> rest[i] == ps[i + 1];
      assert ps[0] !in rest;
      RemoveFirstKeeps(rest, p);
      assert ps == [ps[0]] + rest;
    }
  }

  /** Over every run of operations the positions stay pairwise distinct and are never negative, and a position
      taken off is gone. */
  lemma {:induction false} RunKeepsDistinct(ops: seq<Op>)
    ensures Distinct(After(ops).positions)
    ensures forall p :: p in After(ops).positions ==> p >= 0
    ensures forall p :: p !in Next(After(ops), Shield(p)).positions
  {
    if ops != [] {
      var s, op := After(ops[..|ops| - 1]), ops[|ops| - 1];
      RunKeepsDistinct(ops[..|ops| - 1]);
      if op.Shield? {
        RemoveFirstKeeps(s.positions, op.position);
      }
    }
    forall p
      ensures p !in Next(After(ops), Shield(p)).positions
    {
      RemoveFirstKeeps(After(ops).positions, p);
    }
  }

  lemma {:induction false} RemoveLast(ps: seq<int>, p: int)
    requires p !in ps
    ensures RemoveFirst(ps + [p], p) == ps
  {
    if ps == [] {
      assert ps + [p] == [p];
    } else {
      RemoveLast(ps[1..], p);
      assert (ps + [p])[1..] == ps[1..] + [p];
    }
  }

  /** A window is in the list after it was shown if and only if it was there or its position exists in the layout, and a
      new one comes last; taking off one that was just shown undoes it; between the two halves of a change of layout
      nothing can be shown, and after it exactly the new positions. */
  lemma ShowsExactly(s: Layout, p: int, ok: bool, n: nat)
    ensures p in Next(s, Show(p, ok)).positions <==> p in s.positions || (ok && 0 <= p < s.windows)
    ensures p !in s.positions ==> Next(Next(s, Show(p, ok)), Shield(p)) == s
    ensures s.positions <= Next(s, Show(p, ok)).positions
    ensures Next(Next(s, Clear), Show(p, ok)) == Next(s, Clear) && Next(s, Clear).positions == []
    ensures Next(Next(Next(s, Clear), Install(n)), Show(p, ok)).positions == if ok && 0 <= p < n then [p] else []
  {
    if p !in s.positions {
      RemoveLast(s.positions, p);
      NothingToRemove(s.positions, p);
    }
  }

  // ---- one compose pass ----

  function NonZero(ps: seq<int>): seq<int> {
    if ps == [] then [] else NonZero(ps[..|ps| - 1]) + (if ps[|ps| - 1] != 0 then [ps[|ps| - 1]] else [])
  }

  /** The order in which a compose pass draws. */
  function ComposeOrder(ps: seq<int>): seq<int> {
    (if 0 in ps then [0] else []) + NonZero(ps)
  }

  function Zeros(ps: seq<int>): nat {
    multiset(ps)[0]
  }

  lemma {:induction false} NonZeroCounts(ps: seq<int>)
    ensures multiset(NonZero(ps)) == multiset(ps)[0 := 0]
  {
    if ps != [] {
      NonZeroCounts(ps[..|ps| - 1]);
      assert ps == ps[..|ps| - 1] + [ps[|ps| - 1]];
    }
  }

  /** Window 0 comes first, and every node is drawn exactly once if and only if position 0 occurs at most once. */
  lemma ComposeDrawsEachOnce(ps: seq<int>)
    ensures multiset(ComposeOrder(ps)) == multiset(ps) <==> Zeros(ps) <= 1
    ensures forall i :: 0 < i < |ComposeOrder(ps)| ==> ComposeOrder(ps)[i] != 0
    ensures 0 in ps ==> ComposeOrder(ps)[0] == 0
  {
    NonZeroCounts(ps);
    assert 0 !in multiset(NonZero(ps));
    assert 0 in ps <==> multiset(ps)[0] > 0;
    var all := multiset(ComposeOrder(ps));
    assert all == (if 0 in ps then multiset{0} else multiset{}) + multiset(NonZero(ps));
    assert all[0] == if 0 in ps then 1 else 0;
    forall i | 0 < i < |ComposeOrder(ps)|
      ensures ComposeOrder(ps)[i] != 0
    {
      assert ComposeOrder(ps)[i] in NonZero(ps);
    }
  }

  /** The windows behind window 0 are drawn in list order: they sit at increasing positions of the list. */
  lemma {:induction false} ComposeKeepsOrder(ps: seq<int>) returns (at: seq<nat>)
    ensures |at| == |NonZero(ps)|
    ensures forall i | 0 <= i < |at| :: at[i] < |ps| && ps[at[i]] == NonZero(ps)[i]
    ensures forall i, j | 0 <= i < j < |at| :: at[i] < at[j]
  {
    if ps == [] {
      at := [];
    } else {
      var n := |ps| - 1;
      at := ComposeKeepsOrder(ps[..n]);
      if ps[n] != 0 {
        at := at + [n];
      }
    }
  }

  lemma DistinctOnce(ps: seq<int>)
    requires Distinct(ps)
    ensures Zeros(ps) <= 1
  {
    if 0 in ps {
      var i :| 0 <= i < |ps| && ps[i] == 0;
      assert ps == ps[..i] + [0] + ps[i + 1..];
      assert 0 !in ps[..i] && 0 !in ps[i + 1..];
    }
  }

  /** In every reachable layout a compose pass draws each window exactly once, window 0 first. */
  lemma EveryPassDrawsAll(ops: seq<Op>)
    ensures var ps := After(ops).positions;
            && multiset(ComposeOrder(ps)) == multiset(ps)
            && (0 in ps ==> ComposeOrder(ps)[0] == 0)
  {
    RunKeepsDistinct(ops);
    DistinctOnce(After(ops).positions);
    ComposeDrawsEachOnce(After(ops).positions);
  }

  // ---- the linked list ----

  class Display {
    const pos: int
    const area: Rect
    var next: Display?
    var pre: Display?

    constructor (pos: int, area: Rect)
      ensures this.pos == pos && this.area == area && next == null && pre == null
    {
      this.pos := pos;
      this.area := area;
      next := null;
      pre := null;
    }
  }

  function Positions(nodes: seq<Display>): (ps: seq<int>)
    ensures |ps| == |nodes| && forall i :: 0 <= i < |ps| ==> ps[i] == nodes[i].pos
  {
    seq(|nodes|, i requires 0 <= i < |nodes| => nodes[i].pos)
  }

  /** The spine without its k-th node. */
  ghost function Cut(nodes: seq<Display>, k: nat): (r: seq<Display>)
    requires k < |nodes|
    ensures |r| == |nodes| - 1 && forall i :: 0 <= i < |r| ==> r[i] == nodes[if i < k then i else i + 1]
  {
    nodes[..k] + nodes[k + 1..]
  }

  function NodeAt(nodes: seq<Display>, i: int): Display? {
    if 0 <= i < |nodes| then nodes[i] else null
  }

  /** The neighbours of node i once node k is bypassed. */
  function NextPast(nodes: seq<Display>, k: nat, i: int): Display? {
    NodeAt(nodes, if i + 1 == k then k + 1 else i + 1)
  }

  function PrePast(nodes: seq<Display>, k: nat, i: int): Display? {
    NodeAt(nodes, if i - 1 == k then k - 1 else i - 1)
  }

  lemma CutNeighbours(nodes: seq<Display>, k: nat, i: nat)
    requires k < |nodes| && i < |nodes| - 1
    ensures var j := if i < k then i else i + 1;
            && Cut(nodes, k)[i] == nodes[j]
            && NextPast(nodes, k, j) == NodeAt(Cut(nodes, k), i + 1)
            && PrePast(nodes, k, j) == NodeAt(Cut(nodes, k), i - 1)
  {
  }

  ghost predicate NoRepeats(nodes: seq<Display>) {
    forall i, j :: 0 <= i < j < |nodes| ==> nodes[i] != nodes[j]
  }

  lemma OtherNode(nodes: seq<Display>, i: int, j: int)
    requires NoRepeats(nodes) && 0 <= i < |nodes| && 0 <= j < |nodes| && i != j
    ensures nodes[i] != nodes[j]
  {
  }

  lemma CutNoRepeats(nodes: seq<Display>, k: nat)
    requires NoRepeats(nodes) && k < |nodes|
    ensures NoRepeats(Cut(nodes, k))
  {
  }

  lemma CutHead(nodes: seq<Display>)
    requires |nodes| > 0
    ensures Cut(nodes, 0) == nodes[1..]
  {
  }

  class Screen {
    var disp: Display?
    var window: seq<Rect>
    var angle: int
    var panelW: Word
    var panelH: Word
    ghost var spine: seq<Display>

    /** Neighbours point at each other, the ends at nothing, and no node occurs twice. */
    ghost predicate Valid()
      reads this`disp, this`spine, spine
    {
      && disp == At(0)
      && NoRepeats(spine)
      && (forall i {:trigger spine[i].next} {:trigger spine[i].pre} :: 0 <= i < |spine| ==>
         spine[i].next == At(i + 1) && spine[i].pre == At(i - 1))
    }

    ghost function At(i: int): Display?
      reads this`spine
    {
      NodeAt(spine, i)
    }

    ghost function View(): Layout
      reads this`spine, this`window
    {
      Layout(Positions(spine), |window|)
    }

    constructor (panelW: Word, panelH: Word)
      ensures Valid() && View() == Layout([], 0)
    {
      disp, window, spine := null, [], [];
      angle := 0;
      this.panelW, this.panelH := panelW, panelH;
    }

    lemma Head()
      requires Valid()
      ensures disp == At(0)
    {
    }

    lemma Linked(i: nat)
      requires Valid() && i < |spine|
      ensures spine[i].next == At(i + 1) && spine[i].pre == At(i - 1)
    {
    }

    /** The walk to the tail. */
    method Last() returns (cur: Display)
      requires Valid() && disp != null
      ensures |spine| > 0 && cur == spine[|spine| - 1]
    {
      hide Valid;
      Head();
      cur := disp;
      ghost var i := 0;
      Linked(i);
      while cur.next != null
        invariant 0 <= i < |spine| && cur == spine[i] && cur.next == At(i + 1)
        decreases |spine| - i
      {
        cur := cur.next;
        i := i + 1;
        Linked(i);
      }
    }

    method AddNode(node: Display)
      requires Valid() && node !in spine && node.next == null && node.pre == null
      modifies this`disp, this`spine, spine, node
      ensures Valid() && spine == old(spine) + [node]
    {
      if disp == null {
        disp := node;
      } else {
        var cur := Last();
        cur.next := node;
        node.pre := cur;
      }
      spine := spine + [node];
    }

    /** A node that is not in the list changes nothing. */
    method DeleteNode(node: Display)
      requires Valid()
      modifies this`disp, this`spine, spine
      ensures Valid()
      ensures node !in old(spine) ==> spine == old(spine)
      ensures forall k :: 0 <= k < old(|spine|) && old(spine)[k] == node ==> spine == Cut(old(spine), k)
    {
      var cur := disp;
      ghost var i := 0;
      while cur != null
        invariant 0 <= i <= |spine| && cur == At(i) && node !in spine[..i]
        invariant Valid() && spine == old(spine)
        decreases |spine| - i
      {
        if cur == node {
          Unlink(cur, i);
          return;
        }
        cur := cur.next;
        i := i + 1;
      }
    }

    method Unlink(cur: Display, ghost k: nat)
      requires Valid() && k < |spine| && spine[k] == cur
      modifies this`disp, this`spine, spine
      ensures Valid() && spine == Cut(old(spine), k)
    {
      hide Valid, Cut;
      Linked(k);
      if cur.pre == null && cur.next == null {
        UnlinkOnly();
      } else if cur.next == null {
        UnlinkLast(cur);
      } else if cur.pre == null {
        UnlinkHead(cur);
      } else {
        UnlinkMiddle(cur, k);
      }
    }

    method UnlinkOnly()
      requires Valid() && |spine| == 1
      modifies this`disp, this`spine
      ensures Valid() && spine == Cut(old(spine), 0)
    {
      disp := null;
      spine := Cut(spine, 0);
    }

    method UnlinkLast(cur: Display)
      requires Valid() && |spine| > 1 && spine[|spine| - 1] == cur
      modifies this`spine, spine
      ensures Valid() && spine == Cut(old(spine), |old(spine)| - 1)
    {
      ghost var was := spine;
      var pre := cur.pre;
      assert pre == was[|was| - 2];
      pre.next := null;
      spine := Cut(was, |was| - 1);
      forall i | 0 <= i < |spine|
        ensures spine[i].next == At(i + 1) && spine[i].pre == At(i - 1)
      {
        assert spine[i] == was[i] && was[i].pre == old(was[i].pre);
      }
    }

    method UnlinkHead(cur: Display)
      requires Valid() && |spine| > 1 && spine[0] == cur
      modifies this`disp, this`spine, spine
      ensures Valid() && spine == Cut(old(spine), 0)
    {
      ghost var was := spine;
      disp := cur.next;
      assert disp == was[1];
      disp.pre := null;
      spine := Cut(was, 0);
    }

    method UnlinkMiddle(cur: Display, ghost k: nat)
      requires Valid() && 0 < k < |spine| - 1 && spine[k] == cur
      modifies this`spine, spine
      ensures Valid() && spine == Cut(old(spine), k)
    {
      hide NoRepeats, Cut;
      ghost var was := spine;
      OtherNode(was, k - 1, k + 1);
      var pre, next := cur.pre, cur.next;
      assert pre == was[k - 1] && next == was[k + 1];
      pre.next := next;
      next.pre := pre;
      forall i | 0 <= i < |was| && i != k
        ensures was[i].next == NextPast(was, k, i) && was[i].pre == PrePast(was, k, i)
      {
        if i != k - 1 {
          OtherNode(was, i, k - 1);
        }
        if i != k + 1 {
          OtherNode(was, i, k + 1);
        }
      }
      spine := Cut(was, k);
      Bypassed(was, k);
    }

    /** Links that bypass node k are the links of the list without it. */
    lemma Bypassed(was: seq<Display>, k: nat)
      requires k < |was| && NoRepeats(was) && spine == Cut(was, k)
      requires disp == NodeAt(was, if k == 0 then 1 else 0)
      requires forall i {:trigger was[i].next} {:trigger was[i].pre} :: 0 <= i < |was| && i != k ==>
               was[i].next == NextPast(was, k, i) && was[i].pre == PrePast(was, k, i)
      ensures Valid()
    {
      hide NextPast, PrePast, NoRepeats;
      CutNoRepeats(was, k);
      forall i | 0 <= i < |spine|
        ensures spine[i].next == At(i + 1) && spine[i].pre == At(i - 1)
      {
        CutNeighbours(was, k, i);
      }
    }

    /** The node showing a position, if there is one. */
    method Find(position: int) returns (cur: Display?)
      requires Valid()
      ensures cur == null ==> position !in Positions(spine)
      ensures cur != null ==>
              exists k ::
                0 <= k < |spine| && spine[k] == cur && cur.pos == position &&
                position !in Positions(spine[..k])
    {
      hide Valid, Positions;
      cur := disp;
      ghost var i := 0;
      Head();
      while cur != null
        invariant 0 <= i <= |spine| && cur == At(i)
        invariant forall j :: 0 <= j < i ==> spine[j].pos != position
        decreases |spine| - i
      {
        if cur.pos == position {
          break;
        }
        Linked(i);
        cur := cur.next;
        i := i + 1;
      }
      assert cur != null ==> cur == spine[i];
    }

    /** display_the_window. The three results of the outside world are whether the compose thread starts, whether
        the node is allocated, and whether its picture buffer is. The node drawn into is returned. */
    method DisplayTheWindow(position: int, started: bool, created: bool, buffered: bool) returns (target: Display?)
      requires Valid()
      modifies this`disp, this`spine, spine
      ensures Valid() && window == old(window)
      ensures var mapped := 0 <= position < |window| && MapWindow(angle, panelW, panelH, window[position]).Mapped?;
              var ok := (started || old(disp) != null) && created && buffered && mapped;
              View() == Next(old(View()), Show(position, ok))
      ensures target != null <==>
              && 0 <= position < |window| && (started || old(disp) != null)
              && (position in old(View()).positions ||
                  (created && buffered && MapWindow(angle, panelW, panelH, window[position]).Mapped?))
      ensures target != null ==> target in spine && target.pos == position
      ensures target != null && target !in old(spine) ==>
              0 <= position < |window| && MapWindow(angle, panelW, panelH, window[position]) == Mapped(target.area)
    {
      hide Valid, Cut;
      if position >= |window| || position < 0 {
        return null;
      }
      if disp == null {
        if !started {
          return null;
        }
      }
      target := Find(position);
      if target == null {
        if !created {
          return null;
        }
        match MapWindow(angle, panelW, panelH, window[position])
        case Mapped(area) =>
          if !buffered {
            return null;
          }
          target := new Display(position, area);
          AddNode(target);
        case NoMapping =>
          return null;
      } else {
        assert target in spine;
      }
    }

    method ShieldTheWindow(position: int)
      requires Valid()
      modifies this`disp, this`spine, spine
      ensures Valid() && View() == Next(old(View()), Shield(position))
    {
      hide Valid, Cut, RemoveFirst, Positions;
      var cur := Find(position);
      if cur != null {
        ghost var was := spine;
        ghost var k :| 0 <= k < |spine| && spine[k] == cur && position !in Positions(spine[..k]);
        DeleteNode(cur);
        assert spine == Cut(was, k);
        CutRemoves(was, k);
      } else {
        NothingToRemove(Positions(spine), position);
      }
    }

    /** The first critical section of set_display_window: every node leaves, head first. */
    method ClearWindows()
      requires Valid()
      modifies this`disp, this`spine, this`window, spine
      ensures Valid() && View() == Next(old(View()), Clear) && spine == []
    {
      hide Valid, Cut, Positions, NonZero, MapWindow;
      ghost var nodes := spine;
      ghost var i := 0;
      Head();
      while disp != null
        invariant Valid() && 0 <= i <= |nodes| && spine == nodes[i..] && window == old(window)
        invariant disp == At(0)
        decreases |spine|
      {
        assert spine[0] == disp;
        assert forall d: Display :: d in nodes[i..] ==> d in nodes;
        DeleteNode(disp);
        Head();
        CutHead(nodes[i..]);
        i := i + 1;
        assert spine == nodes[i..];
      }
      window := [];
      NoNodes();
    }

    /** The second one: the new layout and the rotation, which depends on the output device and on flipping. */
    method InstallWindows(win: seq<Rect>, external: bool, rotation: int, flip: bool, w: Word, h: Word)
      requires Valid() && rotation >= 0
      modifies this`window, this`angle, this`panelW, this`panelH
      ensures Valid() && View() == Next(old(View()), Install(|win|)) && window == win && panelW == w && panelH == h
      ensures var base := if external then 0 else rotation; angle == if flip then (base + 180) % 360 else base
    {
      window := win;
      panelW, panelH := w, h;
      angle := if external then 0 else rotation;
      if flip {
        angle := angle + 180;
        angle := angle % 360;
      }
    }

    /** display_compose: window 0, then the others, in list order. */
    method Compose() returns (drawn: seq<Display>)
      requires Valid()
      ensures Positions(drawn) == ComposeOrder(Positions(spine))
      ensures forall d :: d in drawn ==> d in spine
    {
      hide Positions, NonZero, Valid;
      drawn := [];
      var zero := Find(0);
      if zero != null {
        drawn := [zero];
      }
      ghost var ps := Positions(spine);
      ghost var first := if 0 in ps then [0] else [];
      FirstDrawn(zero, spine);
      Head();
      var cur := disp;
      ghost var i := 0;
      NonZeroNone(ps);
      while cur != null
        invariant 0 <= i <= |spine| && cur == At(i)
        invariant |ps| == |spine| && Positions(drawn) == first + NonZero(ps[..i])
        invariant forall d :: d in drawn ==> d in spine
        decreases |spine| - i
      {
        NonZeroNext(ps, i);
        PositionsAppend(drawn, cur);
        Linked(i);
        if cur.pos != 0 {
          drawn := drawn + [cur];
        }
        cur := cur.next;
        i := i + 1;
      }
      assert ps[..i] == ps;
    }
  }

  lemma FirstDrawn(zero: Display?, nodes: seq<Display>)
    requires zero == null ==> 0 !in Positions(nodes)
    requires zero != null ==> zero in nodes && zero.pos == 0
    ensures Positions(if zero == null then [] else [zero]) == if 0 in Positions(nodes) then [0] else []
  {
    if zero != null {
      var i :| 0 <= i < |nodes| && nodes[i] == zero;
      assert Positions(nodes)[i] == 0;
    }
  }

  lemma NonZeroNone(ps: seq<int>)
    ensures NonZero(ps[..0]) == []
  {
  }

  lemma NonZeroNext(ps: seq<int>, i: nat)
    requires i < |ps|
    ensures NonZero(ps[..i + 1]) == NonZero(ps[..i]) + (if ps[i] != 0 then [ps[i]] else [])
  {
    assert ps[..i + 1][..i] == ps[..i];
  }

  lemma PositionsAppend(nodes: seq<Display>, d: Display)
    ensures Positions(nodes + [d]) == Positions(nodes) + [d.pos]
  {
  }

  lemma NoNodes()
    ensures Positions([]) == []
  {
  }

  lemma NothingToRemove(ps: seq<int>, p: int)
    requires p !in ps
    ensures RemoveFirst(ps, p) == ps
  {
  }

  lemma {:induction false} RemoveAt(ps: seq<int>, k: nat)
    requires k < |ps| && ps[k] !in ps[..k]
    ensures RemoveFirst(ps, ps[k]) == ps[..k] + ps[k + 1..]
  {
    if k == 0 {
      assert ps[..0] + ps[1..] == ps[1..];
    } else {
      var rest := ps[1..];
      assert rest[k - 1] == ps[k] && rest[k..] == ps[k + 1..];
      assert ps[..k] == [ps[0]] + rest[..k - 1];
      RemoveAt(rest, k - 1);
    }
  }

  lemma CutRemoves(nodes: seq<Display>, k: nat)
    requires k < |nodes| && nodes[k].pos !in Positions(nodes[..k])
    ensures Positions(Cut(nodes, k)) == RemoveFirst(Positions(nodes), nodes[k].pos)
  {
    assert Positions(nodes)[..k] == Positions(nodes[..k]);
    RemoveAt(Positions(nodes), k);
  }
}
