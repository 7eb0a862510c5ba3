/** What a pass of the assembler guarantees: every original child is kept,
    once and in order; the children before the first section-opening heading
    stay in place; every section starts with its heading, carries the
    attributes `make_section` gives it, and nests only sections of deeper
    level; and each `hasN` counter equals the number of child sections. */
module AssemblyProofs {
  import opened Strings
  import opened Tree
  import opened Sections
  import opened Assembler

  /* ---------------------------------------------- original and new nodes */

  /** The original nodes below a list of nodes, in document order: a node
      with id >= base is a section made by the pass and stands for the nodes
      it holds. */
  function Flatten(ns: seq<Node>, base: nat): seq<Node>
    decreases ns
  {
    if |ns| == 0 then []
    else (if ns[0].id >= base then Flatten(ns[0].children, base) else [ns[0]]) + Flatten(ns[1..], base)
  }

  lemma {:induction false} FlattenAppend(a: seq<Node>, b: seq<Node>, base: nat)
    ensures Flatten(a + b, base) == Flatten(a, base) + Flatten(b, base)
  {
    if |a| == 0 {
      assert a + b == b;
    } else {
      assert (a + b)[0] == a[0];
      assert (a + b)[1..] == a[1..] + b;
      FlattenAppend(a[1..], b, base);
    }
  }

  lemma FlattenOne(n: Node, base: nat)
    ensures Flatten([n], base) == if n.id >= base then Flatten(n.children, base) else [n]
  {
    assert [n][1..] == [];
  }

  /** The number of sections among `cs`. */
  function CountSections(base: nat, cs: seq<Node>): nat
  {
    if |cs| == 0 then 0 else (if cs[0].id >= base then 1 else 0) + CountSections(base, cs[1..])
  }

  lemma {:induction false} CountAppend(base: nat, cs: seq<Node>, c: Node)
    ensures CountSections(base, cs + [c]) == CountSections(base, cs) + (if c.id >= base then 1 else 0)
  {
    if |cs| == 0 {
      assert cs + [c] == [c];
      assert [c][1..] == [];
    } else {
      assert (cs + [c])[1..] == cs[1..] + [c];
      CountAppend(base, cs[1..], c);
    }
  }

  lemma AppendAssoc<T>(a: seq<T>, b: seq<T>, c: seq<T>)
    ensures a + (b + c) == (a + b) + c
  {
  }

  /* ------------------------------------------------- well-formed sections */

  /** The attributes `make_section` gives a section for heading `h`, with the
      class allowed to have gained a counter word. */
  predicate AttrsFor(cfg: Config, attrs: map<string, string>, h: Node)
    requires IsOpening(cfg, h.tag)
  {
    && attrs.Keys <= {"id", "class"}
    && ("id" in attrs <==> HeaderId(h) != "")
    && ("id" in attrs ==> attrs["id"] == "section_" + HeaderId(h))
    && "class" in attrs
    && OtherWords(Split(attrs["class"])) == OtherWords(Split(SectionClass(cfg, h)))
  }

  /** A section made by the pass: its first child is the original heading
      that opened it and the only section-opening heading among its original
      children, its attributes are those of `make_section`, every section
      nested directly in it is well formed and of a deeper level, and its
      children keep the order `SectionsAfter` describes. */
  predicate GoodSection(cfg: Config, base: nat, n: Node)
    decreases n
  {
    && n.id >= base && n.tag == "section" && |n.children| > 0
    && n.children[0].id < base && IsOpening(cfg, n.children[0].tag)
    && AttrsFor(cfg, n.attrs, n.children[0])
    && (forall i :: 0 <= i < |n.children| && n.children[i].id >= base ==>
          && GoodSection(cfg, base, n.children[i])
          && SectionLevel(cfg, n.children[i]) > SectionLevel(cfg, n))
    && (forall i :: 1 <= i < |n.children| && n.children[i].id < base ==> !IsOpening(cfg, n.children[i].tag))
    && SectionsAfter(cfg, base, n.children)
  }

  /** The level of a section: that of its heading (-1 for a node that does
      not start with an opening heading). */
  function SectionLevel(cfg: Config, n: Node): int
  {
    if |n.children| > 0 && IsOpening(cfg, n.children[0].tag) then Level(cfg, n.children[0].tag) else -1
  }

  /** In a list of children, once a section has begun every later child is a
      section, of the same level or a shallower one: a heading closes every
      open section of its level or deeper, and original nodes after it go
      into its own section. */
  predicate SectionsAfter(cfg: Config, base: nat, cs: seq<Node>) {
    forall i, j :: 0 <= i < j < |cs| && cs[i].id >= base ==>
      cs[j].id >= base && SectionLevel(cfg, cs[j]) <= SectionLevel(cfg, cs[i])
  }

  /** The list ends with an original node, or is empty. */
  predicate Plain(base: nat, cs: seq<Node>) {
    |cs| == 0 || cs[|cs| - 1].id < base
  }

  /** A section of level `level` may follow the list: it ends with an
      original node or with a section of that level or a deeper one. */
  predicate FitsAfter(cfg: Config, base: nat, cs: seq<Node>, level: int) {
    Plain(base, cs) || SectionLevel(cfg, cs[|cs| - 1]) >= level
  }

  /** Appending an original node after original nodes, or a section that
      fits, keeps the order of sections. */
  lemma SectionsAfterAppend(cfg: Config, base: nat, cs: seq<Node>, c: Node)
    requires SectionsAfter(cfg, base, cs)
    requires c.id < base ==> Plain(base, cs)
    requires c.id >= base ==> FitsAfter(cfg, base, cs, SectionLevel(cfg, c))
    ensures SectionsAfter(cfg, base, cs + [c])
  {
    var r := cs + [c];
    forall i, j | 0 <= i < j < |r| && r[i].id >= base
      ensures r[j].id >= base && SectionLevel(cfg, r[j]) <= SectionLevel(cfg, r[i])
    {
      assert r[i] == cs[i];
      if j < |cs| {
        assert r[j] == cs[j];
      } else {
        var last := |cs| - 1;
        assert r[j] == c;
        if i < last {
          assert cs[last].id >= base && SectionLevel(cfg, cs[last]) <= SectionLevel(cfg, cs[i]);
        }
      }
    }
  }

  /** The counter words of a section name exactly its number of child
      sections, and so for every section below it. */
  predicate Counted(base: nat, n: Node)
    decreases n
  {
    && CountIs(n, CountSections(base, n.children))
    && forall i :: 0 <= i < |n.children| && n.children[i].id >= base ==> Counted(base, n.children[i])
  }

  /** An open section: its counter is ahead by `extra`, for the child section
      that is open inside it and not attached yet. */
  predicate OpenCounted(base: nat, n: Node, extra: nat)
  {
    && CountIs(n, CountSections(base, n.children) + extra)
    && forall i :: 0 <= i < |n.children| && n.children[i].id >= base ==> Counted(base, n.children[i])
  }

  /** Attaching an original node that opens no section after original
      children, or a well-formed child section of deeper level that fits
      after the children, keeps a section well formed. */
  lemma GoodAppend(cfg: Config, base: nat, p: Node, c: Node)
    requires GoodSection(cfg, base, p)
    requires c.id < base ==> !IsOpening(cfg, c.tag) && Plain(base, p.children)
    requires c.id >= base ==>
      && GoodSection(cfg, base, c) && SectionLevel(cfg, c) > SectionLevel(cfg, p)
      && FitsAfter(cfg, base, p.children, SectionLevel(cfg, c))
    ensures GoodSection(cfg, base, Append(p, c))
    ensures SectionLevel(cfg, Append(p, c)) == SectionLevel(cfg, p)
  {
    var q := Append(p, c);
    assert q.children[0] == p.children[0];
    assert SectionLevel(cfg, q) == SectionLevel(cfg, p);
    AppendSectionsGood(cfg, base, p, c);
    AppendNoOpening(cfg, base, p, c);
    SectionsAfterAppend(cfg, base, p.children, c);
    GoodIntro(cfg, base, q);
  }

  /** The clauses of `GoodSection`, one by one. */
  lemma GoodIntro(cfg: Config, base: nat, n: Node)
    requires n.id >= base && n.tag == "section" && |n.children| > 0
    requires n.children[0].id < base && IsOpening(cfg, n.children[0].tag)
    requires AttrsFor(cfg, n.attrs, n.children[0])
    requires forall i :: 0 <= i < |n.children| && n.children[i].id >= base ==>
               && GoodSection(cfg, base, n.children[i])
               && SectionLevel(cfg, n.children[i]) > SectionLevel(cfg, n)
    requires forall i :: 1 <= i < |n.children| && n.children[i].id < base ==> !IsOpening(cfg, n.children[i].tag)
    requires SectionsAfter(cfg, base, n.children)
    ensures GoodSection(cfg, base, n)
  {
  }

  lemma AppendSectionsGood(cfg: Config, base: nat, p: Node, c: Node)
    requires GoodSection(cfg, base, p)
    requires c.id >= base ==> GoodSection(cfg, base, c) && SectionLevel(cfg, c) > SectionLevel(cfg, p)
    ensures var q := Append(p, c);
            forall i :: 0 <= i < |q.children| && q.children[i].id >= base ==>
              && GoodSection(cfg, base, q.children[i])
              && SectionLevel(cfg, q.children[i]) > SectionLevel(cfg, p)
  {
    var q := Append(p, c);
    forall i | 0 <= i < |q.children| && q.children[i].id >= base
      ensures GoodSection(cfg, base, q.children[i])
      ensures SectionLevel(cfg, q.children[i]) > SectionLevel(cfg, p)
    {
      if i < |p.children| {
        assert q.children[i] == p.children[i];
      } else {
        assert q.children[i] == c;
      }
    }
  }

  lemma AppendNoOpening(cfg: Config, base: nat, p: Node, c: Node)
    requires GoodSection(cfg, base, p)
    requires c.id < base ==> !IsOpening(cfg, c.tag)
    ensures var q := Append(p, c);
            forall i :: 1 <= i < |q.children| && q.children[i].id < base ==> !IsOpening(cfg, q.children[i].tag)
  {
    var q := Append(p, c);
    forall i | 1 <= i < |q.children| && q.children[i].id < base
      ensures !IsOpening(cfg, q.children[i].tag)
    {
      if i < |p.children| {
        assert q.children[i] == p.children[i];
      } else {
        assert q.children[i] == c;
      }
    }
  }

  /** The counter words of `n`'s class name the number `k`. */
  predicate CountIs(n: Node, k: nat) {
    "class" in n.attrs && HasWords(Split(n.attrs["class"])) == CounterWords(k)
  }

  lemma CountedAppend(base: nat, p: Node, c: Node, extra: nat)
    requires c.id < base ==> OpenCounted(base, p, extra)
    requires c.id >= base ==> OpenCounted(base, p, extra + 1) && Counted(base, c)
    ensures OpenCounted(base, Append(p, c), extra)
  {
    var q := Append(p, c);
    var k := CountSections(base, p.children + [c]) + extra;
    CountAppend(base, p.children, c);
    if c.id >= base {
      assert k == CountSections(base, p.children) + (extra + 1);
    } else {
      assert k == CountSections(base, p.children) + extra;
    }
    AppendCount(p, c, k);
    AppendChildrenCounted(base, p, c);
    OpenCountedIntro(base, q, extra, k);
  }

  lemma OpenCountedIntro(base: nat, q: Node, extra: nat, k: nat)
    requires k == CountSections(base, q.children) + extra && CountIs(q, k)
    requires forall i :: 0 <= i < |q.children| && q.children[i].id >= base ==> Counted(base, q.children[i])
    ensures OpenCounted(base, q, extra)
  {
  }

  lemma AppendCount(p: Node, c: Node, k: nat)
    requires CountIs(p, k)
    ensures CountIs(Append(p, c), k) && Append(p, c).children == p.children + [c]
  {
  }

  lemma AppendChildrenCounted(base: nat, p: Node, c: Node)
    requires forall i :: 0 <= i < |p.children| && p.children[i].id >= base ==> Counted(base, p.children[i])
    requires c.id >= base ==> Counted(base, c)
    ensures var q := Append(p, c);
            forall i :: 0 <= i < |q.children| && q.children[i].id >= base ==> Counted(base, q.children[i])
  {
    var q := Append(p, c);
    forall i | 0 <= i < |q.children| && q.children[i].id >= base
      ensures Counted(base, q.children[i])
    {
      if i < |p.children| {
        assert q.children[i] == p.children[i];
      }
    }
  }

  /* --------------------------------------------------- the open sections */

  /** An open section that is well formed, at its heading's level. */
  predicate GoodFrame(cfg: Config, base: nat, f: Frame) {
    GoodSection(cfg, base, f.section) && f.level == SectionLevel(cfg, f.section)
  }

  predicate FramesGood(cfg: Config, base: nat, frames: seq<Frame>) {
    forall i :: 0 <= i < |frames| ==> GoodFrame(cfg, base, frames[i])
  }

  /** Every counter but the innermost one is ahead by the open child section. */
  predicate FramesCounted(base: nat, frames: seq<Frame>) {
    forall i :: 0 <= i < |frames| ==> OpenCounted(base, frames[i].section, if i == |frames| - 1 then 0 else 1)
  }

  /** The open sections: well formed, levels strictly increasing inward, and
      counted when counting. */
  predicate FramesOK(cfg: Config, base: nat, frames: seq<Frame>, counted: bool)
  {
    FramesGood(cfg, base, frames) && Increasing(frames) && (counted ==> FramesCounted(base, frames))
  }

  /** The original nodes held by the open sections, outermost first. */
  function FlattenFrames(frames: seq<Frame>, base: nat): seq<Node>
  {
    if |frames| == 0 then [] else Flatten(frames[0].section.children, base) + FlattenFrames(frames[1..], base)
  }

  lemma {:induction false} FlattenFramesAppend(a: seq<Frame>, f: Frame, base: nat)
    ensures FlattenFrames(a + [f], base) == FlattenFrames(a, base) + Flatten(f.section.children, base)
  {
    if |a| == 0 {
      assert a + [f] == [f];
      assert [f][1..] == [];
    } else {
      assert (a + [f])[1..] == a[1..] + [f];
      FlattenFramesAppend(a[1..], f, base);
    }
  }

  lemma {:induction false} FlattenFramesSameChildren(a: seq<Frame>, b: seq<Frame>, base: nat)
    requires |a| == |b|
    requires forall i :: 0 <= i < |a| ==> a[i].section.children == b[i].section.children
    ensures FlattenFrames(a, base) == FlattenFrames(b, base)
  {
    if |a| > 0 {
      FlattenFramesSameChildren(a[1..], b[1..], base);
    }
  }

  /* ------------------------------------------- the node being assembled */

  /** The children before the first section-opening heading. */
  function Leading(cfg: Config, ps: seq<Node>): (r: seq<Node>)
    ensures |r| <= |ps| && r == ps[..|r|] && NoOpening(cfg, r)
    ensures |r| < |ps| ==> IsOpening(cfg, ps[|r|].tag)
  {
    if |ps| == 0 || IsOpening(cfg, ps[0].tag) then []
    else
      var rest := Leading(cfg, ps[1..]);
      NoOpeningPrepend(cfg, ps[0], rest);
      PrefixCons(ps, rest);
      [ps[0]] + rest
  }

  lemma NoOpeningPrepend(cfg: Config, c: Node, r: seq<Node>)
    requires !IsOpening(cfg, c.tag) && NoOpening(cfg, r)
    ensures NoOpening(cfg, [c] + r)
  {
    forall k | 0 <= k < |[c] + r|
      ensures !IsOpening(cfg, ([c] + r)[k].tag)
    {
      if k > 0 {
        assert ([c] + r)[k] == r[k - 1];
      }
    }
  }

  lemma PrefixCons<T>(ps: seq<T>, rest: seq<T>)
    requires |ps| > 0 && |rest| <= |ps| - 1 && rest == ps[1..][..|rest|]
    ensures [ps[0]] + rest == ps[..|rest| + 1]
  {
  }

  lemma LeadingAppend(cfg: Config, ps: seq<Node>, c: Node)
    ensures NoOpening(cfg, ps) ==> Leading(cfg, ps) == ps
    ensures IsOpening(cfg, c.tag) || !NoOpening(cfg, ps) ==> Leading(cfg, ps + [c]) == Leading(cfg, ps)
    ensures NoOpening(cfg, ps) && !IsOpening(cfg, c.tag) ==> Leading(cfg, ps + [c]) == ps + [c]
  {
    LeadingAll(cfg, ps);
    if IsOpening(cfg, c.tag) || !NoOpening(cfg, ps) {
      LeadingAppendStops(cfg, ps, c);
    } else {
      NoOpeningAppend(cfg, ps, c);
      LeadingAll(cfg, ps + [c]);
    }
  }

  /** Without an opening heading, every child is leading. */
  lemma {:induction false} LeadingAll(cfg: Config, ps: seq<Node>)
    ensures NoOpening(cfg, ps) ==> Leading(cfg, ps) == ps
  {
    if |ps| > 0 && NoOpening(cfg, ps) {
      NoOpeningCons(cfg, ps);
      LeadingAll(cfg, ps[1..]);
      assert ps == [ps[0]] + ps[1..];
    }
  }

  /** Once an opening heading has been met, later children are not leading. */
  lemma {:induction false} LeadingAppendStops(cfg: Config, ps: seq<Node>, c: Node)
    requires IsOpening(cfg, c.tag) || !NoOpening(cfg, ps)
    ensures Leading(cfg, ps + [c]) == Leading(cfg, ps)
  {
    if |ps| == 0 {
      assert ps + [c] == [c];
    } else {
      AppendTail(ps, c);
      if !IsOpening(cfg, ps[0].tag) {
        NoOpeningCons(cfg, ps);
        LeadingAppendStops(cfg, ps[1..], c);
      }
    }
  }

  lemma AppendTail<T>(ps: seq<T>, c: T)
    requires |ps| > 0
    ensures (ps + [c])[0] == ps[0] && (ps + [c])[1..] == ps[1..] + [c]
  {
  }

  lemma NoOpeningCons(cfg: Config, ps: seq<Node>)
    requires |ps| > 0
    ensures NoOpening(cfg, ps) <==> !IsOpening(cfg, ps[0].tag) && NoOpening(cfg, ps[1..])
  {
    if !IsOpening(cfg, ps[0].tag) && NoOpening(cfg, ps[1..]) {
      forall k | 1 <= k < |ps|
        ensures !IsOpening(cfg, ps[k].tag)
      {
        assert ps[k] == ps[1..][k - 1];
      }
    }
  }

  /** The node's children so far: the leading children, then sections, in
      the order `SectionsAfter` describes. */
  predicate RootOK(cfg: Config, base: nat, root: seq<Node>, lead: seq<Node>, counted: bool)
  {
    && |lead| <= |root| && root[..|lead|] == lead
    && (forall i :: |lead| <= i < |root| ==>
          GoodSection(cfg, base, root[i]) && (counted ==> Counted(base, root[i])))
    && SectionsAfter(cfg, base, root)
  }

  /** The children the `i`-th open section will be attached after: those of
      the node being assembled for the outermost one, those of the section
      enclosing it otherwise. `Container(s, |s.frames|)` is where the next
      moved child goes. */
  function Container(s: State, i: nat): seq<Node>
    requires i <= |s.frames|
  {
    if i == 0 then s.root else s.frames[i - 1].section.children
  }

  /** Every open section fits after the children it will be attached to. */
  predicate ChainOK(cfg: Config, base: nat, s: State) {
    forall i :: 0 <= i < |s.frames| ==> FitsAfter(cfg, base, Container(s, i), s.frames[i].level)
  }

  /** What holds of the state after every step, and inside `begin_section`. */
  predicate CoreInv(cfg: Config, base: nat, s: State, processed: seq<Node>, counted: bool)
  {
    && s.nextId >= base
    && FramesOK(cfg, base, s.frames, counted)
    && Flatten(s.root, base) + FlattenFrames(s.frames, base) == processed
    && RootOK(cfg, base, s.root, Leading(cfg, processed), counted)
    && ChainOK(cfg, base, s)
  }

  /** The loop invariant of `assemble`: `seen` (a section has been opened
      among the children so far) holds exactly when a section is open and
      exactly when an opening heading has been met. */
  predicate Inv(cfg: Config, base: nat, s: State, seen: bool, processed: seq<Node>, counted: bool)
  {
    && CoreInv(cfg, base, s, processed, counted)
    && (seen <==> |s.frames| > 0)
    && (seen <==> !NoOpening(cfg, processed))
    && (!seen ==> s.root == processed)
    && Plain(base, Container(s, |s.frames|))
  }

  /* ------------------------------------------------------ end_section */

  lemma EndSectionOne(cfg: Config, base: nat, s: State, processed: seq<Node>, counted: bool)
    requires CoreInv(cfg, base, s, processed, counted) && |s.frames| == 1
    ensures CoreInv(cfg, base, EndSection(s), processed, counted)
  {
    var top := s.frames[0];
    assert EndSection(s) == State([], s.root + [top.section], s.nextId);
    assert GoodSection(cfg, base, top.section);
    assert counted ==> OpenCounted(base, top.section, 0);
    assert Container(s, 0) == s.root;
    AttachFlatten(s.root, s.frames, base);
    var lead := Leading(cfg, processed);
    RootPush(cfg, base, s.root, lead, counted, top.section);
    CoreIntro(cfg, base, State([], s.root + [top.section], s.nextId), processed, counted, lead);
  }

  /** Attaching the only open section to the node keeps the original nodes. */
  lemma AttachFlatten(root: seq<Node>, frames: seq<Frame>, base: nat)
    requires |frames| == 1 && frames[0].section.id >= base
    ensures Flatten(root + [frames[0].section], base) + FlattenFrames([], base)
            == Flatten(root, base) + FlattenFrames(frames, base)
  {
    var sec := frames[0].section;
    FlattenAppend(root, [sec], base);
    FlattenOne(sec, base);
    assert frames[1..] == [];
    assert FlattenFrames(frames, base) == Flatten(sec.children, base);
  }

  /** A well-formed section attached after the node's children so far. */
  lemma RootPush(cfg: Config, base: nat, root: seq<Node>, lead: seq<Node>, counted: bool, sec: Node)
    requires RootOK(cfg, base, root, lead, counted)
    requires GoodSection(cfg, base, sec) && (counted ==> CountIs(sec, CountSections(base, sec.children)))
    requires FitsAfter(cfg, base, root, SectionLevel(cfg, sec))
    requires counted ==> forall i :: 0 <= i < |sec.children| && sec.children[i].id >= base ==> Counted(base, sec.children[i])
    ensures RootOK(cfg, base, root + [sec], lead, counted)
  {
    var r := root + [sec];
    assert r[..|lead|] == root[..|lead|];
    forall i | |lead| <= i < |r|
      ensures GoodSection(cfg, base, r[i]) && (counted ==> Counted(base, r[i]))
    {
      if i < |root| {
        assert r[i] == root[i];
      } else {
        assert r[i] == sec;
      }
    }
    SectionsAfterAppend(cfg, base, root, sec);
  }

  /** The open sections after the innermost one is attached to its parent. */
  function Fold(frames: seq<Frame>): (r: seq<Frame>)
    requires |frames| >= 2
    ensures |r| == |frames| - 1
  {
    var n := |frames|;
    frames[..n - 2] + [Frame(Append(frames[n - 2].section, frames[n - 1].section), frames[n - 2].level)]
  }

  lemma FoldGood(cfg: Config, base: nat, frames: seq<Frame>)
    requires FramesGood(cfg, base, frames) && Increasing(frames) && |frames| >= 2
    requires FitsAfter(cfg, base, frames[|frames| - 2].section.children, frames[|frames| - 1].level)
    ensures FramesGood(cfg, base, Fold(frames))
  {
    var n := |frames|;
    var p := frames[n - 2];
    var t := frames[n - 1];
    var r := Fold(frames);
    assert r[n - 2] == Frame(Append(p.section, t.section), p.level);
    assert t.level > p.level;
    GoodAppend(cfg, base, p.section, t.section);
    forall i | 0 <= i < |r|
      ensures GoodSection(cfg, base, r[i].section)
      ensures r[i].level == SectionLevel(cfg, r[i].section)
    {
      if i < n - 2 {
        assert r[i] == frames[i];
      }
    }
  }

  lemma FoldIncreasing(frames: seq<Frame>)
    requires Increasing(frames) && |frames| >= 2
    ensures Increasing(Fold(frames))
  {
    var r := Fold(frames);
    forall i, j | 0 <= i < j < |r|
      ensures r[i].level < r[j].level
    {
      assert r[i].level == frames[i].level && r[j].level == frames[j].level;
    }
  }

  lemma FoldCounted(base: nat, frames: seq<Frame>)
    requires FramesCounted(base, frames) && |frames| >= 2 && frames[|frames| - 1].section.id >= base
    ensures FramesCounted(base, Fold(frames))
  {
    var n := |frames|;
    var p := frames[n - 2];
    var t := frames[n - 1];
    var r := Fold(frames);
    assert r[n - 2] == Frame(Append(p.section, t.section), p.level);
    assert OpenCounted(base, p.section, 1);
    assert OpenCounted(base, t.section, 0);
    CountedAppend(base, p.section, t.section, 0);
    forall i | 0 <= i < |r|
      ensures OpenCounted(base, r[i].section, if i == |r| - 1 then 0 else 1)
    {
      if i < n - 2 {
        assert r[i] == frames[i];
      }
    }
  }

  lemma FoldFramesOK(cfg: Config, base: nat, frames: seq<Frame>, counted: bool)
    requires FramesOK(cfg, base, frames, counted) && |frames| >= 2
    requires FitsAfter(cfg, base, frames[|frames| - 2].section.children, frames[|frames| - 1].level)
    ensures FramesOK(cfg, base, Fold(frames), counted)
  {
    FoldGood(cfg, base, frames);
    FoldIncreasing(frames);
    if counted {
      FoldCounted(base, frames);
    }
  }

  lemma FoldFlatten(frames: seq<Frame>, base: nat)
    requires |frames| >= 2 && frames[|frames| - 1].section.id >= base
    ensures FlattenFrames(Fold(frames), base) == FlattenFrames(frames, base)
  {
    var n := |frames|;
    var pre := frames[..n - 2];
    var p := frames[n - 2];
    var t := frames[n - 1];
    var p' := Frame(Append(p.section, t.section), p.level);
    assert Fold(frames) == pre + [p'];
    assert frames == pre + [p] + [t];
    var inner := Flatten(p.section.children, base) + Flatten(t.section.children, base);
    assert Flatten(p'.section.children, base) == inner by {
      FlattenAppend(p.section.children, [t.section], base);
      FlattenOne(t.section, base);
    }
    assert FlattenFrames(pre + [p'], base) == FlattenFrames(pre, base) + inner by {
      FlattenFramesAppend(pre, p', base);
    }
    assert FlattenFrames(pre + [p] + [t], base) == FlattenFrames(pre, base) + inner by {
      FlattenFramesAppend(pre + [p], t, base);
      FlattenFramesAppend(pre, p, base);
    }
  }

  lemma EndSectionMany(cfg: Config, base: nat, s: State, processed: seq<Node>, counted: bool)
    requires CoreInv(cfg, base, s, processed, counted) && |s.frames| >= 2
    ensures CoreInv(cfg, base, EndSection(s), processed, counted)
  {
    var e := s.(frames := Fold(s.frames));
    EndFold(s);
    ChainTop(cfg, base, s);
    FoldFramesOK(cfg, base, s.frames, counted);
    FoldFlatten(s.frames, base);
    FoldChain(cfg, base, s);
    CoreIntro(cfg, base, e, processed, counted, Leading(cfg, processed));
  }

  /** Closing one of several open sections folds the top two frames. */
  lemma EndFold(s: State)
    requires |s.frames| >= 2
    ensures EndSection(s) == s.(frames := Fold(s.frames))
  {
  }

  /** The innermost open section fits after the children of its parent. */
  lemma ChainTop(cfg: Config, base: nat, s: State)
    requires ChainOK(cfg, base, s) && |s.frames| >= 2
    ensures FitsAfter(cfg, base, s.frames[|s.frames| - 2].section.children, s.frames[|s.frames| - 1].level)
  {
    assert Container(s, |s.frames| - 1) == s.frames[|s.frames| - 2].section.children;
  }

  /** The open sections below the closed one still fit. */
  lemma FoldChain(cfg: Config, base: nat, s: State)
    requires ChainOK(cfg, base, s) && |s.frames| >= 2
    ensures ChainOK(cfg, base, s.(frames := Fold(s.frames)))
  {
    FoldKeeps(s.frames);
    ChainPrefix(cfg, base, s, s.(frames := Fold(s.frames)));
  }

  /** Folding keeps every level and the children of the frames below the
      top two. */
  lemma FoldKeeps(frames: seq<Frame>)
    requires |frames| >= 2
    ensures forall i :: 0 <= i < |frames| - 1 ==> Fold(frames)[i].level == frames[i].level
    ensures forall i :: 0 <= i < |frames| - 2 ==> Fold(frames)[i].section.children == frames[i].section.children
  {
    var f := Fold(frames);
    forall i | 0 <= i < |frames| - 1
      ensures f[i].level == frames[i].level
      ensures i < |frames| - 2 ==> f[i].section.children == frames[i].section.children
    {
      if i < |frames| - 2 {
        assert f[i] == frames[i];
      }
    }
  }

  /** Open sections that keep the levels of the first ones of `a`, and the
      children of all but the innermost, fit as those of `a` do. */
  lemma ChainPrefix(cfg: Config, base: nat, a: State, b: State)
    requires ChainOK(cfg, base, a) && a.root == b.root && |b.frames| <= |a.frames|
    requires forall i :: 0 <= i < |b.frames| ==> b.frames[i].level == a.frames[i].level
    requires forall i :: 0 <= i < |b.frames| - 1 ==> b.frames[i].section.children == a.frames[i].section.children
    ensures ChainOK(cfg, base, b)
  {
    forall i | 0 <= i < |b.frames|
      ensures FitsAfter(cfg, base, Container(b, i), b.frames[i].level)
    {
      ContainerSame(a, b, i);
      FitsSame(cfg, base, Container(a, i), Container(b, i), a.frames[i].level, b.frames[i].level);
    }
  }

  lemma EndSectionKeeps(cfg: Config, base: nat, s: State, processed: seq<Node>, counted: bool)
    requires CoreInv(cfg, base, s, processed, counted)
    ensures CoreInv(cfg, base, EndSection(s), processed, counted)
  {
    if |s.frames| == 1 {
      EndSectionOne(cfg, base, s, processed, counted);
    } else if |s.frames| >= 2 {
      EndSectionMany(cfg, base, s, processed, counted);
    }
  }

  lemma {:induction false} CloseFromKeeps(cfg: Config, base: nat, s: State, level: int, processed: seq<Node>, counted: bool)
    requires CoreInv(cfg, base, s, processed, counted)
    ensures CoreInv(cfg, base, CloseFrom(s, level), processed, counted)
    decreases |s.frames|
  {
    if |s.frames| > 0 && CurrentLevel(s) >= level {
      var e := EndSection(s);
      EndSectionKeeps(cfg, base, s, processed, counted);
      CloseFromKeeps(cfg, base, e, level, processed, counted);
      assert CloseFrom(s, level) == CloseFrom(e, level);
    } else {
      assert CloseFrom(s, level) == s;
    }
  }

  /** After `CloseFrom(s, level)` a section of `level` fits where the next
      child goes: nothing was closed, or the last section closed was of
      `level` or deeper and is now the last child there. */
  lemma {:induction false} CloseFromFits(cfg: Config, base: nat, s: State, level: int, processed: seq<Node>, counted: bool)
    requires CoreInv(cfg, base, s, processed, counted)
    requires FitsAfter(cfg, base, Container(s, |s.frames|), level)
    ensures var c := CloseFrom(s, level); FitsAfter(cfg, base, Container(c, |c.frames|), level)
    decreases |s.frames|
  {
    if |s.frames| > 0 && CurrentLevel(s) >= level {
      var e := EndSection(s);
      assert GoodFrame(cfg, base, s.frames[|s.frames| - 1]);
      EndFits(cfg, base, s, level);
      EndSectionKeeps(cfg, base, s, processed, counted);
      CloseFromFits(cfg, base, e, level, processed, counted);
      assert CloseFrom(s, level) == CloseFrom(e, level);
    } else {
      assert CloseFrom(s, level) == s;
    }
  }

  /** The section just closed is the last child where the next child goes. */
  lemma EndFits(cfg: Config, base: nat, s: State, level: int)
    requires |s.frames| > 0 && s.frames[|s.frames| - 1].level >= level
    requires SectionLevel(cfg, s.frames[|s.frames| - 1].section) == s.frames[|s.frames| - 1].level
    ensures var e := EndSection(s); FitsAfter(cfg, base, Container(e, |e.frames|), level)
  {
    var n := |s.frames|;
    var t := s.frames[n - 1];
    var e := EndSection(s);
    var cs := Container(e, |e.frames|);
    if n == 1 {
      assert cs == s.root + [t.section];
    } else {
      assert e.frames[n - 2].section == Append(s.frames[n - 2].section, t.section);
      assert cs == s.frames[n - 2].section.children + [t.section];
    }
    assert cs[|cs| - 1] == t.section;
  }

  /** Everything still open is attached in the end. */
  lemma {:induction false} CloseAllKeeps(cfg: Config, base: nat, s: State, processed: seq<Node>, counted: bool)
    requires CoreInv(cfg, base, s, processed, counted)
    ensures CoreInv(cfg, base, CloseAll(s), processed, counted)
    decreases |s.frames|
  {
    if |s.frames| > 0 {
      EndSectionKeeps(cfg, base, s, processed, counted);
      CloseAllKeeps(cfg, base, EndSection(s), processed, counted);
    }
  }

  /* ---------------------------------------------------- begin_section */

  /** Every open section's counter is ahead by one: the state of the stack
      just before a new section is pushed. */
  predicate AllAhead(base: nat, frames: seq<Frame>) {
    forall i :: 0 <= i < |frames| ==> OpenCounted(base, frames[i].section, 1)
  }

  /** A new class value with the same non-counter words keeps a section
      well formed. */
  lemma ReclassGood(cfg: Config, base: nat, sec: Node, cls: string)
    requires GoodSection(cfg, base, sec)
    requires OtherWords(Split(cls)) == OtherWords(Split(sec.attrs["class"]))
    ensures GoodSection(cfg, base, sec.(attrs := sec.attrs["class" := cls]))
    ensures SectionLevel(cfg, sec.(attrs := sec.attrs["class" := cls])) == SectionLevel(cfg, sec)
  {
    var sec' := sec.(attrs := sec.attrs["class" := cls]);
    assert AttrsFor(cfg, sec'.attrs, sec.children[0]);
  }

  /** Replacing the innermost open section by one of the same level. */
  lemma ReplaceTopGood(cfg: Config, base: nat, frames: seq<Frame>, top': Frame)
    requires FramesGood(cfg, base, frames) && |frames| > 0
    requires GoodFrame(cfg, base, top')
    ensures FramesGood(cfg, base, frames[..|frames| - 1] + [top'])
  {
    var n := |frames|;
    var r := frames[..n - 1] + [top'];
    forall i | 0 <= i < n
      ensures GoodFrame(cfg, base, r[i])
    {
      if i < n - 1 {
        assert r[i] == frames[i];
      }
    }
  }

  lemma ReplaceTopIncreasing(frames: seq<Frame>, top': Frame)
    requires Increasing(frames) && |frames| > 0
    requires top'.level == frames[|frames| - 1].level
    ensures Increasing(frames[..|frames| - 1] + [top'])
  {
    var n := |frames|;
    var r := frames[..n - 1] + [top'];
    forall i, j | 0 <= i < j < n
      ensures r[i].level < r[j].level
    {
      assert r[i].level == frames[i].level && r[j].level == frames[j].level;
    }
  }

  lemma ReplaceTopAhead(base: nat, frames: seq<Frame>, top': Frame)
    requires FramesCounted(base, frames) && |frames| > 0
    requires OpenCounted(base, top'.section, 1)
    ensures AllAhead(base, frames[..|frames| - 1] + [top'])
  {
    var n := |frames|;
    var r := frames[..n - 1] + [top'];
    forall i | 0 <= i < n
      ensures OpenCounted(base, r[i].section, 1)
    {
      if i < n - 1 {
        assert r[i] == frames[i];
      }
    }
  }

  /** The innermost open section with its counter bumped. */
  function Bumped(top: Frame): Frame
    requires "class" in top.section.attrs && BumpHas(top.section.attrs["class"]).Some?
  {
    var sec := top.section;
    Frame(sec.(attrs := sec.attrs["class" := BumpHas(sec.attrs["class"]).value]), top.level)
  }

  lemma BumpedGood(cfg: Config, base: nat, top: Frame)
    requires GoodFrame(cfg, base, top)
    requires "class" in top.section.attrs && BumpHas(top.section.attrs["class"]).Some?
    ensures GoodFrame(cfg, base, Bumped(top))
  {
    var cls := top.section.attrs["class"];
    BumpHasFails(cls);
    var count, c := BumpHasSpec(cls);
    ReclassGood(cfg, base, top.section, c);
  }

  lemma BumpedCounted(base: nat, top: Frame)
    requires OpenCounted(base, top.section, 0)
    ensures BumpHas(top.section.attrs["class"]).Some?
    ensures OpenCounted(base, Bumped(top).section, 1)
  {
    var cls := top.section.attrs["class"];
    var k := CountSections(base, top.section.children);
    assert HasWords(Split(cls)) == CounterWords(k);
    BumpHasReplaces(cls, k);
    var sec' := Bumped(top).section;
    assert sec'.children == top.section.children;
    assert sec'.attrs["class"] == BumpHas(cls).value;
    assert CountIs(sec', k + 1);
  }

  lemma BumpedFrame(cfg: Config, base: nat, top: Frame, counted: bool)
    requires GoodFrame(cfg, base, top)
    requires "class" in top.section.attrs && BumpHas(top.section.attrs["class"]).Some?
    requires counted ==> OpenCounted(base, top.section, 0)
    ensures GoodFrame(cfg, base, Bumped(top))
    ensures counted ==> OpenCounted(base, Bumped(top).section, 1)
  {
    BumpedGood(cfg, base, top);
    if counted {
      BumpedCounted(base, top);
    }
  }

  /** `BumpCurrent` replaces the innermost open section by `Bumped`. */
  lemma BumpCurrentIs(c: State)
    requires |c.frames| > 0
    requires "class" in c.frames[|c.frames| - 1].section.attrs
    requires BumpHas(c.frames[|c.frames| - 1].section.attrs["class"]).Some?
    ensures BumpCurrent(c) == Ok(c.(frames := c.frames[..|c.frames| - 1] + [Bumped(c.frames[|c.frames| - 1])]))
  {
    var top := c.frames[|c.frames| - 1];
    assert Get(top.section.attrs, "class", NoClass) == top.section.attrs["class"];
  }

  /** The open sections with the innermost counter bumped: still well formed
      with the same levels and children; when counting, every counter is
      ahead by one. */
  lemma BumpKeepsFrames(cfg: Config, base: nat, frames: seq<Frame>, counted: bool)
    requires FramesGood(cfg, base, frames) && Increasing(frames) && |frames| > 0
    requires counted ==> FramesCounted(base, frames)
    requires "class" in frames[|frames| - 1].section.attrs
    requires BumpHas(frames[|frames| - 1].section.attrs["class"]).Some?
    ensures var r := frames[..|frames| - 1] + [Bumped(frames[|frames| - 1])];
            && FramesGood(cfg, base, r) && Increasing(r)
            && (counted ==> AllAhead(base, r))
            && |r| == |frames| && r[|r| - 1].level == frames[|frames| - 1].level
            && forall i :: 0 <= i < |r| ==> r[i].section.children == frames[i].section.children
  {
    var n := |frames|;
    var top := frames[n - 1];
    assert GoodFrame(cfg, base, top);
    assert counted ==> OpenCounted(base, top.section, 0);
    BumpedFrame(cfg, base, top, counted);
    var top' := Bumped(top);
    ReplaceTopGood(cfg, base, frames, top');
    ReplaceTopIncreasing(frames, top');
    if counted {
      ReplaceTopAhead(base, frames, top');
    }
    ReplaceTopChildren(frames, top');
  }

  lemma ReplaceTopChildren(frames: seq<Frame>, top': Frame)
    requires |frames| > 0 && top'.section.children == frames[|frames| - 1].section.children
    ensures var r := frames[..|frames| - 1] + [top'];
            |r| == |frames| && forall i :: 0 <= i < |r| ==> r[i].section.children == frames[i].section.children
  {
    var n := |frames|;
    var r := frames[..n - 1] + [top'];
    forall i | 0 <= i < n
      ensures r[i].section.children == frames[i].section.children
    {
      if i < n - 1 {
        assert r[i] == frames[i];
      }
    }
  }

  /** A successful bump of the innermost open section keeps it well formed;
      when counting, its counter becomes ahead by one. */
  lemma BumpKeeps(cfg: Config, base: nat, c: State, counted: bool, p: State)
    requires FramesGood(cfg, base, c.frames) && Increasing(c.frames) && |c.frames| > 0
    requires counted ==> FramesCounted(base, c.frames)
    requires BumpCurrent(c) == Ok(p)
    ensures FramesGood(cfg, base, p.frames) && Increasing(p.frames)
    ensures counted ==> AllAhead(base, p.frames)
    ensures p.root == c.root && p.nextId == c.nextId && |p.frames| == |c.frames|
    ensures CurrentLevel(p) == CurrentLevel(c)
    ensures forall i :: 0 <= i < |p.frames| ==> p.frames[i].section.children == c.frames[i].section.children
  {
    var top := c.frames[|c.frames| - 1];
    assert GoodFrame(cfg, base, top);
    assert Get(top.section.attrs, "class", NoClass) == top.section.attrs["class"];
    BumpKeepsFrames(cfg, base, c.frames, counted);
    BumpCurrentIs(c);
  }

  /** What the invariant needs of a section-opening heading: an original
      node (whose section class has no counter word at all when counting). */
  predicate Openable(cfg: Config, base: nat, h: Node, counted: bool) {
    && h.id < base && IsOpening(cfg, h.tag)
    && (counted ==> HasWords(Split(SectionClass(cfg, h))) == [])
  }

  lemma MakeSectionAttrs(cfg: Config, h: Node, id: nat)
    requires IsOpening(cfg, h.tag)
    ensures AttrsFor(cfg, MakeSection(cfg, h, id).attrs, h)
  {
  }

  lemma SectionOfHeading(cfg: Config, base: nat, sec: Node, h: Node)
    requires sec.id >= base && sec.tag == "section" && sec.children == [h]
    requires h.id < base && IsOpening(cfg, h.tag) && AttrsFor(cfg, sec.attrs, h)
    ensures GoodSection(cfg, base, sec) && SectionLevel(cfg, sec) == Level(cfg, h.tag)
  {
  }

  lemma SectionOfHeadingCounted(base: nat, sec: Node, h: Node)
    requires sec.children == [h] && h.id < base
    requires "class" in sec.attrs && HasWords(Split(sec.attrs["class"])) == []
    ensures OpenCounted(base, sec, 0)
  {
    assert [h][1..] == [];
    assert CountSections(base, sec.children) == 0;
  }

  /** The section opened for `h`, holding `h`, is well formed and counted. */
  lemma NewSectionGood(cfg: Config, base: nat, h: Node, id: nat)
    requires Openable(cfg, base, h, false) && id >= base
    ensures var sec := Append(MakeSection(cfg, h, id), h);
            && GoodSection(cfg, base, sec) && SectionLevel(cfg, sec) == Level(cfg, h.tag)
            && (HasWords(Split(SectionClass(cfg, h))) == [] ==> OpenCounted(base, sec, 0))
  {
    var m := MakeSection(cfg, h, id);
    var sec := Append(m, h);
    assert sec.children == [h];
    MakeSectionAttrs(cfg, h, id);
    SectionOfHeading(cfg, base, sec, h);
    if HasWords(Split(SectionClass(cfg, h))) == [] {
      SectionOfHeadingCounted(base, sec, h);
    }
  }

  /** Pushing the new section on open sections of lower level. */
  lemma PushGood(cfg: Config, base: nat, frames: seq<Frame>, f: Frame)
    requires FramesGood(cfg, base, frames) && GoodFrame(cfg, base, f)
    ensures FramesGood(cfg, base, frames + [f])
  {
    var r := frames + [f];
    forall i | 0 <= i < |r|
      ensures GoodFrame(cfg, base, r[i])
    {
      if i < |frames| {
        assert r[i] == frames[i];
      }
    }
  }

  lemma PushIncreasing(frames: seq<Frame>, f: Frame)
    requires Increasing(frames)
    requires forall i :: 0 <= i < |frames| ==> frames[i].level < f.level
    ensures Increasing(frames + [f])
  {
    var r := frames + [f];
    forall i, j | 0 <= i < j < |r|
      ensures r[i].level < r[j].level
    {
      assert r[i] == frames[i];
      if j < |frames| {
        assert r[j] == frames[j];
      }
    }
  }

  lemma PushCounted(base: nat, frames: seq<Frame>, f: Frame)
    requires AllAhead(base, frames) && OpenCounted(base, f.section, 0)
    ensures FramesCounted(base, frames + [f])
  {
    var r := frames + [f];
    forall i | 0 <= i < |r|
      ensures OpenCounted(base, r[i].section, if i == |r| - 1 then 0 else 1)
    {
      if i < |frames| {
        assert r[i] == frames[i];
      }
    }
  }

  lemma PushKeeps(cfg: Config, base: nat, frames: seq<Frame>, h: Node, id: nat, counted: bool)
    requires Openable(cfg, base, h, counted) && id >= base
    requires FramesGood(cfg, base, frames) && Increasing(frames)
    requires forall i :: 0 <= i < |frames| ==> frames[i].level < Level(cfg, h.tag)
    requires counted ==> AllAhead(base, frames)
    ensures FramesOK(cfg, base, frames + [Frame(Append(MakeSection(cfg, h, id), h), Level(cfg, h.tag))], counted)
  {
    var f := Frame(Append(MakeSection(cfg, h, id), h), Level(cfg, h.tag));
    NewSectionGood(cfg, base, h, id);
    PushGood(cfg, base, frames, f);
    PushIncreasing(frames, f);
    if counted {
      PushCounted(base, frames, f);
    }
  }

  /** The levels of the sections left open by `CloseFrom` are below `level`. */
  lemma BelowLevel(frames: seq<Frame>, level: int)
    requires Increasing(frames)
    requires |frames| == 0 || frames[|frames| - 1].level < level
    ensures forall i :: 0 <= i < |frames| ==> frames[i].level < level
  {
  }

  /** `begin_section` pushes the new section on `p`. */
  predicate PushedOn(cfg: Config, r: State, p: State, h: Node)
    requires IsOpening(cfg, h.tag)
  {
    && r.frames == p.frames + [Frame(MakeSection(cfg, h, p.nextId), Level(cfg, h.tag))]
    && r.root == p.root && r.nextId == p.nextId + 1
  }

  lemma BeginShapeTop(cfg: Config, s: State, h: Node)
    requires IsOpening(cfg, h.tag)
    requires |CloseFrom(s, Level(cfg, h.tag)).frames| == 0
    ensures BeginSection(cfg, s, h).Ok?
    ensures PushedOn(cfg, BeginSection(cfg, s, h).value, CloseFrom(s, Level(cfg, h.tag)), h)
  {
  }

  lemma BeginShapeNested(cfg: Config, s: State, h: Node)
    requires IsOpening(cfg, h.tag)
    requires |CloseFrom(s, Level(cfg, h.tag)).frames| > 0 && BumpCurrent(CloseFrom(s, Level(cfg, h.tag))).Ok?
    ensures BeginSection(cfg, s, h).Ok?
    ensures PushedOn(cfg, BeginSection(cfg, s, h).value, BumpCurrent(CloseFrom(s, Level(cfg, h.tag))).value, h)
  {
  }

  /** The same, for a known bumped state `p`. */
  lemma BeginNestedOn(cfg: Config, s: State, h: Node, p: State)
    requires IsOpening(cfg, h.tag)
    requires |CloseFrom(s, Level(cfg, h.tag)).frames| > 0
    requires BumpCurrent(CloseFrom(s, Level(cfg, h.tag))) == Ok(p)
    ensures BeginSection(cfg, s, h)
            == Ok(State(p.frames + [Frame(MakeSection(cfg, h, p.nextId), Level(cfg, h.tag))], p.root, p.nextId + 1))
  {
    BeginShapeNested(cfg, s, h);
    PushedOnIs(cfg, BeginSection(cfg, s, h).value, p, h);
  }

  lemma PushedOnIs(cfg: Config, r: State, p: State, h: Node)
    requires IsOpening(cfg, h.tag) && PushedOn(cfg, r, p, h)
    ensures r == State(p.frames + [Frame(MakeSection(cfg, h, p.nextId), Level(cfg, h.tag))], p.root, p.nextId + 1)
  {
  }

  lemma ClosedStack(s: State, level: int)
    requires Increasing(s.frames)
    ensures var c := CloseFrom(s, level);
            && Increasing(c.frames)
            && (forall i :: 0 <= i < |c.frames| ==> c.frames[i].level == s.frames[i].level < level)
            && (forall i :: |c.frames| <= i < |s.frames| ==> s.frames[i].level >= level)
  {
    var c := CloseFrom(s, level);
    assert |c.frames| == 0 || c.frames[|c.frames| - 1].level < level;
    SameLevelsIncreasing(c.frames, s.frames);
    BelowLevel(c.frames, level);
  }

  /** A stack whose levels are those of a prefix of an increasing stack is
      increasing. */
  lemma SameLevelsIncreasing(a: seq<Frame>, b: seq<Frame>)
    requires Increasing(b) && |a| <= |b|
    requires forall i :: 0 <= i < |a| ==> a[i].level == b[i].level
    ensures Increasing(a)
  {
    forall i, j | 0 <= i < j < |a|
      ensures a[i].level < a[j].level
    {
      assert a[i].level == b[i].level && a[j].level == b[j].level;
    }
  }

  lemma BumpLevels(c: State) returns (r: State)
    requires |c.frames| > 0 && BumpCurrent(c).Ok?
    ensures BumpCurrent(c) == Ok(r) && |r.frames| == |c.frames|
    ensures forall i :: 0 <= i < |c.frames| ==> r.frames[i].level == c.frames[i].level
  {
    r := BumpCurrent(c).value;
    var n := |c.frames|;
    assert r.frames[n - 1].level == c.frames[n - 1].level;
    assert forall i :: 0 <= i < n - 1 ==> r.frames[i] == c.frames[i];
  }

  /** `begin_section` on a stack of strictly increasing levels: the open
      sections of the heading's level or deeper are closed, the shallower
      ones stay open with their levels, and the new section on top makes the
      levels strictly increasing again. */
  lemma BeginSectionStack(cfg: Config, s: State, h: Node)
    requires IsOpening(cfg, h.tag) && Increasing(s.frames)
    requires BeginSection(cfg, s, h).Ok?
    ensures var r := BeginSection(cfg, s, h).value;
            var kept := |r.frames| - 1;
            && kept <= |s.frames|
            && (forall i :: 0 <= i < kept ==> r.frames[i].level == s.frames[i].level < Level(cfg, h.tag))
            && (forall i :: kept <= i < |s.frames| ==> s.frames[i].level >= Level(cfg, h.tag))
            && CurrentLevel(r) == Level(cfg, h.tag)
            && Increasing(r.frames)
  {
    var level := Level(cfg, h.tag);
    var c := CloseFrom(s, level);
    ClosedStack(s, level);
    var p: State;
    if |c.frames| == 0 {
      BeginShapeTop(cfg, s, h);
      p := c;
    } else {
      BeginShapeNested(cfg, s, h);
      p := BumpLevels(c);
    }
    var r := BeginSection(cfg, s, h).value;
    PushedStack(cfg, r, p, h);
  }

  lemma PushedStack(cfg: Config, r: State, p: State, h: Node)
    requires IsOpening(cfg, h.tag) && PushedOn(cfg, r, p, h)
    ensures |r.frames| == |p.frames| + 1 && CurrentLevel(r) == Level(cfg, h.tag)
    ensures forall i :: 0 <= i < |p.frames| ==> r.frames[i] == p.frames[i]
  {
  }

  /** The state a successful `begin_section` pushes the new section onto:
      the sections at the heading's level or deeper closed, the counter of
      the enclosing one bumped. */
  lemma BeginPrepared(cfg: Config, base: nat, s: State, processed: seq<Node>, counted: bool, h: Node)
    returns (p: State)
    requires CoreInv(cfg, base, s, processed, counted) && Plain(base, Container(s, |s.frames|))
    requires Openable(cfg, base, h, counted) && BeginSection(cfg, s, h).Ok?
    ensures PushedOn(cfg, BeginSection(cfg, s, h).value, p, h)
    ensures FramesGood(cfg, base, p.frames) && Increasing(p.frames)
    ensures forall i :: 0 <= i < |p.frames| ==> p.frames[i].level < Level(cfg, h.tag)
    ensures counted ==> AllAhead(base, p.frames)
    ensures p.nextId >= base
    ensures Flatten(p.root, base) + FlattenFrames(p.frames, base) == processed
    ensures RootOK(cfg, base, p.root, Leading(cfg, processed), counted)
    ensures ChainOK(cfg, base, p) && FitsAfter(cfg, base, Container(p, |p.frames|), Level(cfg, h.tag))
  {
    var level := Level(cfg, h.tag);
    var c := CloseFrom(s, level);
    CloseFromKeeps(cfg, base, s, level, processed, counted);
    CloseFromFits(cfg, base, s, level, processed, counted);
    if |c.frames| == 0 {
      BeginShapeTop(cfg, s, h);
      p := c;
    } else {
      BeginBumps(cfg, s, h);
      p := BumpCurrent(c).value;
      PreparedNested(cfg, base, c, processed, counted, level, p);
      BeginShapeNested(cfg, s, h);
    }
  }

  /** A successful `begin_section` below an open section bumped it. */
  lemma BeginBumps(cfg: Config, s: State, h: Node)
    requires IsOpening(cfg, h.tag) && BeginSection(cfg, s, h).Ok?
    requires |CloseFrom(s, Level(cfg, h.tag)).frames| > 0
    ensures BumpCurrent(CloseFrom(s, Level(cfg, h.tag))).Ok?
  {
  }

  /** The enclosing section's counter bumped, after the deeper sections
      were closed. */
  lemma PreparedNested(cfg: Config, base: nat, c: State, processed: seq<Node>, counted: bool, level: int, p: State)
    requires CoreInv(cfg, base, c, processed, counted)
    requires |c.frames| > 0 && CurrentLevel(c) < level
    requires FitsAfter(cfg, base, Container(c, |c.frames|), level)
    requires BumpCurrent(c) == Ok(p)
    ensures FramesGood(cfg, base, p.frames) && Increasing(p.frames)
    ensures forall i :: 0 <= i < |p.frames| ==> p.frames[i].level < level
    ensures counted ==> AllAhead(base, p.frames)
    ensures p.nextId >= base
    ensures Flatten(p.root, base) + FlattenFrames(p.frames, base) == processed
    ensures RootOK(cfg, base, p.root, Leading(cfg, processed), counted)
    ensures ChainOK(cfg, base, p) && FitsAfter(cfg, base, Container(p, |p.frames|), level)
  {
    PreparedFrames(cfg, base, c, counted, level, p);
    PreparedChain(cfg, base, c, processed, level, p);
  }

  /** The open sections after the bump: still valid, all below `level`. */
  lemma PreparedFrames(cfg: Config, base: nat, c: State, counted: bool, level: int, p: State)
    requires FramesOK(cfg, base, c.frames, counted)
    requires |c.frames| > 0 && CurrentLevel(c) < level
    requires BumpCurrent(c) == Ok(p)
    ensures FramesGood(cfg, base, p.frames) && Increasing(p.frames)
    ensures forall i :: 0 <= i < |p.frames| ==> p.frames[i].level < level
    ensures counted ==> AllAhead(base, p.frames)
  {
    BumpKeeps(cfg, base, c, counted, p);
    assert p.frames[|p.frames| - 1].level < level by {
      assert CurrentLevel(p) == p.frames[|p.frames| - 1].level;
    }
    BelowLevel(p.frames, level);
  }

  /** The bump changes no children, so the nodes held and the fit of every
      open section stay the same. */
  lemma PreparedChain(cfg: Config, base: nat, c: State, processed: seq<Node>, level: int, p: State)
    requires |c.frames| > 0 && BumpCurrent(c) == Ok(p)
    requires Flatten(c.root, base) + FlattenFrames(c.frames, base) == processed
    requires ChainOK(cfg, base, c) && FitsAfter(cfg, base, Container(c, |c.frames|), level)
    ensures p.root == c.root && p.nextId == c.nextId
    ensures Flatten(p.root, base) + FlattenFrames(p.frames, base) == processed
    ensures ChainOK(cfg, base, p) && FitsAfter(cfg, base, Container(p, |p.frames|), level)
  {
    BumpChildren(c, p);
    BumpLevelsSame(c, p);
    FlattenFramesSameChildren(p.frames, c.frames, base);
    ChainSame(cfg, base, c, p);
  }

  /** A bump changes nothing but the class of the current section. */
  lemma BumpChildren(c: State, p: State)
    requires |c.frames| > 0 && BumpCurrent(c) == Ok(p)
    ensures p.root == c.root && p.nextId == c.nextId && |p.frames| == |c.frames|
    ensures forall i :: 0 <= i < |p.frames| ==> p.frames[i].section.children == c.frames[i].section.children
  {
    var n := |c.frames|;
    forall i | 0 <= i < n
      ensures p.frames[i].section.children == c.frames[i].section.children
    {
      if i < n - 1 {
        assert p.frames[i] == c.frames[i];
      }
    }
  }

  /** A bump keeps every level. */
  lemma BumpLevelsSame(c: State, p: State)
    requires |c.frames| > 0 && BumpCurrent(c) == Ok(p)
    ensures forall i :: 0 <= i < |c.frames| ==> p.frames[i].level == c.frames[i].level
  {
    var r := BumpLevels(c);
  }

  /** Open sections with the same levels and children, and the same node
      children, fit the same way. */
  lemma ChainSame(cfg: Config, base: nat, a: State, b: State)
    requires ChainOK(cfg, base, a) && a.root == b.root && |a.frames| == |b.frames|
    requires forall i :: 0 <= i < |a.frames| ==> b.frames[i].level == a.frames[i].level
    requires forall i :: 0 <= i < |a.frames| ==> b.frames[i].section.children == a.frames[i].section.children
    ensures ChainOK(cfg, base, b)
    ensures forall i :: 0 <= i <= |b.frames| ==> Container(b, i) == Container(a, i)
  {
    forall i | 0 <= i <= |b.frames|
      ensures Container(b, i) == Container(a, i)
    {
      ContainerSame(a, b, i);
    }
    ChainPrefix(cfg, base, a, b);
  }

  /** The new section, holding its heading, on top of a prepared state. */
  lemma PushedCore(cfg: Config, base: nat, p: State, processed: seq<Node>, counted: bool, h: Node, f: Frame)
    requires IsOpening(cfg, h.tag) && h.id < base
    requires f.section.id >= base && f.section.children == [h]
    requires FramesOK(cfg, base, p.frames + [f], counted)
    requires p.nextId >= base
    requires Flatten(p.root, base) + FlattenFrames(p.frames, base) == processed
    requires RootOK(cfg, base, p.root, Leading(cfg, processed), counted)
    requires ChainOK(cfg, base, p) && FitsAfter(cfg, base, Container(p, |p.frames|), f.level)
    ensures CoreInv(cfg, base, State(p.frames + [f], p.root, p.nextId + 1), processed + [h], counted)
  {
    assert FlattenFrames(p.frames + [f], base) == FlattenFrames(p.frames, base) + [h] by {
      FlattenFramesAppend(p.frames, f, base);
      FlattenOne(h, base);
    }
    assert Leading(cfg, processed + [h]) == Leading(cfg, processed) by {
      LeadingAppend(cfg, processed, h);
    }
    assert ChainOK(cfg, base, State(p.frames + [f], p.root, p.nextId + 1)) by {
      ChainPush(cfg, base, p, f);
    }
    AddedCore(cfg, base, p.(nextId := p.nextId + 1), p.frames + [f], processed, counted, h);
  }

  /** A new open section on top fits when it fits where the next child
      goes. */
  lemma ChainPush(cfg: Config, base: nat, p: State, f: Frame)
    requires ChainOK(cfg, base, p) && FitsAfter(cfg, base, Container(p, |p.frames|), f.level)
    ensures ChainOK(cfg, base, State(p.frames + [f], p.root, p.nextId + 1))
  {
    var q := State(p.frames + [f], p.root, p.nextId + 1);
    PushFrames(p.frames, f);
    ChainExtend(cfg, base, p, q);
  }

  lemma PushFrames(frames: seq<Frame>, f: Frame)
    ensures |frames + [f]| == |frames| + 1 && (frames + [f])[|frames|] == f
    ensures forall i :: 0 <= i < |frames| ==> (frames + [f])[i].level == frames[i].level
    ensures forall i :: 0 <= i < |frames| ==> (frames + [f])[i].section.children == frames[i].section.children
  {
  }

  /** One more open section on top of those of `a` fits when it fits where
      the next child of `a`'s innermost section goes. */
  lemma ChainExtend(cfg: Config, base: nat, a: State, b: State)
    requires ChainOK(cfg, base, a) && a.root == b.root && |b.frames| == |a.frames| + 1
    requires forall i :: 0 <= i < |a.frames| ==> b.frames[i].level == a.frames[i].level
    requires forall i :: 0 <= i < |a.frames| ==> b.frames[i].section.children == a.frames[i].section.children
    requires FitsAfter(cfg, base, Container(a, |a.frames|), b.frames[|a.frames|].level)
    ensures ChainOK(cfg, base, b)
  {
    var n := |a.frames|;
    forall i | 0 <= i < n + 1
      ensures FitsAfter(cfg, base, Container(b, i), b.frames[i].level)
    {
      var level := if i < n then a.frames[i].level else b.frames[n].level;
      ContainerSame(a, b, i);
      FitsSame(cfg, base, Container(a, i), Container(b, i), level, b.frames[i].level);
    }
  }

  /** Two states with the same node children and the same children of
      their first `i` open sections have the same `i`-th container. */
  lemma ContainerSame(a: State, b: State, i: nat)
    requires a.root == b.root && i <= |a.frames| && i <= |b.frames|
    requires i > 0 ==> b.frames[i - 1].section.children == a.frames[i - 1].section.children
    ensures Container(b, i) == Container(a, i)
  {
  }

  lemma FitsSame(cfg: Config, base: nat, a: seq<Node>, b: seq<Node>, la: int, lb: int)
    requires FitsAfter(cfg, base, a, la) && a == b && la == lb
    ensures FitsAfter(cfg, base, b, lb)
  {
  }

  /** A heading that opens a section, then moved into it (lines 177-180). */
  lemma BeginAddKeeps(cfg: Config, base: nat, s: State, processed: seq<Node>, counted: bool, h: Node)
    requires CoreInv(cfg, base, s, processed, counted) && Plain(base, Container(s, |s.frames|))
    requires Openable(cfg, base, h, counted) && BeginSection(cfg, s, h).Ok?
    ensures var s2 := AddElement(BeginSection(cfg, s, h).value, h);
            CoreInv(cfg, base, s2, processed + [h], counted) && Plain(base, Container(s2, |s2.frames|))
  {
    var p := BeginPrepared(cfg, base, s, processed, counted, h);
    PushAdd(cfg, base, p, processed, counted, h);
    AddOnPushed(cfg, BeginSection(cfg, s, h).value, p, h);
  }

  /** The section opened for `h`, holding `h`, on top of a prepared state. */
  lemma PushAdd(cfg: Config, base: nat, p: State, processed: seq<Node>, counted: bool, h: Node)
    requires Openable(cfg, base, h, counted)
    requires FramesGood(cfg, base, p.frames) && Increasing(p.frames)
    requires forall i :: 0 <= i < |p.frames| ==> p.frames[i].level < Level(cfg, h.tag)
    requires counted ==> AllAhead(base, p.frames)
    requires p.nextId >= base
    requires Flatten(p.root, base) + FlattenFrames(p.frames, base) == processed
    requires RootOK(cfg, base, p.root, Leading(cfg, processed), counted)
    requires ChainOK(cfg, base, p) && FitsAfter(cfg, base, Container(p, |p.frames|), Level(cfg, h.tag))
    ensures var q := State(p.frames + [Frame(Append(MakeSection(cfg, h, p.nextId), h), Level(cfg, h.tag))], p.root, p.nextId + 1);
            CoreInv(cfg, base, q, processed + [h], counted) && Plain(base, Container(q, |q.frames|))
  {
    var f := Frame(Append(MakeSection(cfg, h, p.nextId), h), Level(cfg, h.tag));
    PushKeeps(cfg, base, p.frames, h, p.nextId, counted);
    PushedCore(cfg, base, p, processed, counted, h, f);
    var q := State(p.frames + [f], p.root, p.nextId + 1);
    assert Container(q, |q.frames|) == [h];
  }

  /** Moving the heading into the section just opened for it. */
  lemma AddOnPushed(cfg: Config, s1: State, p: State, h: Node)
    requires IsOpening(cfg, h.tag) && PushedOn(cfg, s1, p, h)
    ensures AddElement(s1, h)
            == State(p.frames + [Frame(Append(MakeSection(cfg, h, p.nextId), h), Level(cfg, h.tag))], p.root, p.nextId + 1)
  {
    var q := State(p.frames + [Frame(Append(MakeSection(cfg, h, p.nextId), h), Level(cfg, h.tag))], p.root, p.nextId + 1);
    assert AddElement(s1, h).frames == q.frames;
  }

  /* ---------------------------------------------------- add_element */

  lemma ReplaceTopCounted(base: nat, frames: seq<Frame>, top': Frame)
    requires FramesCounted(base, frames) && |frames| > 0
    requires OpenCounted(base, top'.section, 0)
    ensures FramesCounted(base, frames[..|frames| - 1] + [top'])
  {
    var n := |frames|;
    var r := frames[..n - 1] + [top'];
    forall i | 0 <= i < n
      ensures OpenCounted(base, r[i].section, if i == n - 1 then 0 else 1)
    {
      if i < n - 1 {
        assert r[i] == frames[i];
      }
    }
  }

  lemma NoOpeningAppend(cfg: Config, ps: seq<Node>, c: Node)
    ensures NoOpening(cfg, ps + [c]) <==> NoOpening(cfg, ps) && !IsOpening(cfg, c.tag)
  {
    if !NoOpening(cfg, ps) {
      var k :| 0 <= k < |ps| && IsOpening(cfg, ps[k].tag);
      assert (ps + [c])[k] == ps[k];
    }
    assert (ps + [c])[|ps|] == c;
  }

  /** The open sections after `add_element`. */
  lemma AddFrames(cfg: Config, base: nat, frames: seq<Frame>, counted: bool, child: Node)
    requires FramesOK(cfg, base, frames, counted) && |frames| > 0 && child.id < base
    requires !IsOpening(cfg, child.tag) && Plain(base, frames[|frames| - 1].section.children)
    ensures var t := frames[|frames| - 1];
            FramesOK(cfg, base, frames[..|frames| - 1] + [Frame(Append(t.section, child), t.level)], counted)
  {
    var n := |frames|;
    var t := frames[n - 1];
    var t' := Frame(Append(t.section, child), t.level);
    assert GoodFrame(cfg, base, t);
    GoodAppend(cfg, base, t.section, child);
    ReplaceTopGood(cfg, base, frames, t');
    ReplaceTopIncreasing(frames, t');
    if counted {
      assert OpenCounted(base, t.section, 0);
      CountedAppend(base, t.section, child, 0);
      ReplaceTopCounted(base, frames, t');
    }
  }

  lemma AddFlatten(frames: seq<Frame>, base: nat, child: Node)
    requires |frames| > 0 && child.id < base
    ensures var t := frames[|frames| - 1];
            FlattenFrames(frames[..|frames| - 1] + [Frame(Append(t.section, child), t.level)], base)
            == FlattenFrames(frames, base) + [child]
  {
    var n := |frames|;
    var t := frames[n - 1];
    var t' := Frame(Append(t.section, child), t.level);
    assert frames == frames[..n - 1] + [t];
    FlattenFramesAppend(frames[..n - 1], t, base);
    FlattenFramesAppend(frames[..n - 1], t', base);
    FlattenAppend(t.section.children, [child], base);
    FlattenOne(child, base);
  }

  /** A sibling after the first opening heading is moved into the current
      section (line 180). */
  lemma AddKeeps(cfg: Config, base: nat, s: State, processed: seq<Node>, counted: bool, child: Node)
    requires CoreInv(cfg, base, s, processed, counted) && |s.frames| > 0
    requires Plain(base, Container(s, |s.frames|))
    requires child.id < base && !IsOpening(cfg, child.tag) && !NoOpening(cfg, processed)
    ensures var s' := AddElement(s, child);
            CoreInv(cfg, base, s', processed + [child], counted) && Plain(base, Container(s', |s'.frames|))
  {
    var n := |s.frames|;
    var t := s.frames[n - 1];
    var t' := Frame(Append(t.section, child), t.level);
    var frames' := s.frames[..n - 1] + [t'];
    assert AddElement(s, child) == State(frames', s.root, s.nextId);
    AddFrames(cfg, base, s.frames, counted, child);
    AddFlatten(s.frames, base, child);
    LeadingAppend(cfg, processed, child);
    ChainReplaceTop(cfg, base, s, t');
    AddedCore(cfg, base, s, frames', processed, counted, child);
    assert Container(State(frames', s.root, s.nextId), n) == t.section.children + [child];
  }

  /** Replacing the innermost open section by one of the same level keeps
      every open section fitting. */
  lemma ChainReplaceTop(cfg: Config, base: nat, s: State, top': Frame)
    requires ChainOK(cfg, base, s) && |s.frames| > 0
    requires top'.level == s.frames[|s.frames| - 1].level
    ensures ChainOK(cfg, base, State(s.frames[..|s.frames| - 1] + [top'], s.root, s.nextId))
  {
    var n := |s.frames|;
    var q := State(s.frames[..n - 1] + [top'], s.root, s.nextId);
    forall i | 0 <= i < n
      ensures q.frames[i].level == s.frames[i].level
      ensures i < n - 1 ==> q.frames[i].section.children == s.frames[i].section.children
    {
      if i < n - 1 {
        assert q.frames[i] == s.frames[i];
      }
    }
    ChainPrefix(cfg, base, s, q);
  }

  /** The state after `add_element`, from its parts. */
  lemma AddedCore(cfg: Config, base: nat, s: State, frames': seq<Frame>, processed: seq<Node>, counted: bool, child: Node)
    requires s.nextId >= base
    requires FramesOK(cfg, base, frames', counted)
    requires Flatten(s.root, base) + FlattenFrames(s.frames, base) == processed
    requires FlattenFrames(frames', base) == FlattenFrames(s.frames, base) + [child]
    requires RootOK(cfg, base, s.root, Leading(cfg, processed), counted)
    requires Leading(cfg, processed + [child]) == Leading(cfg, processed)
    requires ChainOK(cfg, base, State(frames', s.root, s.nextId))
    ensures CoreInv(cfg, base, State(frames', s.root, s.nextId), processed + [child], counted)
  {
    var a := Flatten(s.root, base);
    var b := FlattenFrames(s.frames, base);
    var s' := State(frames', s.root, s.nextId);
    AppendAssoc(a, b, [child]);
    CoreIntro(cfg, base, s', processed + [child], counted, Leading(cfg, processed));
  }

  lemma CoreIntro(cfg: Config, base: nat, s: State, processed: seq<Node>, counted: bool, lead: seq<Node>)
    requires s.nextId >= base
    requires FramesOK(cfg, base, s.frames, counted)
    requires Flatten(s.root, base) + FlattenFrames(s.frames, base) == processed
    requires lead == Leading(cfg, processed) && RootOK(cfg, base, s.root, lead, counted)
    requires ChainOK(cfg, base, s)
    ensures CoreInv(cfg, base, s, processed, counted)
  {
  }

  /** A sibling before any opening heading stays where it is. */
  lemma KeepKeeps(cfg: Config, base: nat, s: State, processed: seq<Node>, counted: bool, child: Node)
    requires CoreInv(cfg, base, s, processed, counted) && |s.frames| == 0
    requires s.root == processed && NoOpening(cfg, processed) && Plain(base, s.root)
    requires child.id < base && !IsOpening(cfg, child.tag)
    ensures CoreInv(cfg, base, s.(root := s.root + [child]), processed + [child], counted)
  {
    var s' := s.(root := s.root + [child]);
    FlattenAppend(s.root, [child], base);
    FlattenOne(child, base);
    LeadingAppend(cfg, processed, child);
    SectionsAfterAppend(cfg, base, s.root, child);
  }

  /* ----------------------------------------------------------- assemble */

  /** What the pass needs of the children of the node it assembles: original
      nodes, no opening heading below them, and every opening heading
      `Openable`. */
  predicate Assemblable(cfg: Config, base: nat, children: seq<Node>, counted: bool) {
    forall i :: 0 <= i < |children| ==> ChildOK(cfg, base, children[i], counted)
  }

  predicate ChildOK(cfg: Config, base: nat, c: Node, counted: bool) {
    && c.id < base && NoOpeningBelow(cfg, c)
    && (IsOpening(cfg, c.tag) ==> Openable(cfg, base, c, counted))
  }

  /** A successful iteration of the loop keeps the invariant. */
  lemma StepKeeps(cfg: Config, base: nat, s: State, seen: bool, processed: seq<Node>, counted: bool, child: Node,
                  next: (State, bool))
    requires Inv(cfg, base, s, seen, processed, counted)
    requires ChildOK(cfg, base, child, counted)
    requires Step(cfg, s, seen, child) == Ok(next)
    ensures Inv(cfg, base, next.0, next.1, processed + [child], counted)
  {
    NoOpeningAppend(cfg, processed, child);
    if IsOpening(cfg, child.tag) {
      assert BeginSection(cfg, s, child).Ok?;
      BeginAddKeeps(cfg, base, s, processed, counted, child);
    } else if seen {
      AddKeeps(cfg, base, s, processed, counted, child);
    } else {
      assert Container(s, 0) == s.root;
      KeepKeeps(cfg, base, s, processed, counted, child);
    }
  }

  lemma RunUnfold(cfg: Config, s: State, seen: bool, children: seq<Node>)
    requires seen ==> |s.frames| > 0
    requires |children| > 0 && forall i :: 0 <= i < |children| ==> NoOpeningBelow(cfg, children[i])
    requires Step(cfg, s, seen, children[0]).Ok?
    ensures var next := Step(cfg, s, seen, children[0]).value;
            Run(cfg, s, seen, children) == Run(cfg, next.0, next.1, children[1..])
  {
  }

  /** The first child is fit for the loop, and so are the others. */
  lemma AssemblableSplit(cfg: Config, base: nat, children: seq<Node>, counted: bool)
    requires Assemblable(cfg, base, children, counted) && |children| > 0
    ensures ChildOK(cfg, base, children[0], counted)
    ensures Assemblable(cfg, base, children[1..], counted)
  {
    var rest := children[1..];
    forall i | 0 <= i < |rest|
      ensures ChildOK(cfg, base, rest[i], counted)
    {
      assert rest[i] == children[i + 1];
    }
  }

  lemma AppendFirst<T>(p: seq<T>, xs: seq<T>)
    requires |xs| > 0
    ensures p + [xs[0]] + xs[1..] == p + xs
  {
    assert [xs[0]] + xs[1..] == xs;
  }

  /** One turn of the loop: the first child keeps the invariant, and the rest
      of the run goes on from there. */
  lemma RunHead(cfg: Config, base: nat, s: State, seen: bool, processed: seq<Node>, counted: bool,
                children: seq<Node>, done: (State, bool)) returns (next: (State, bool))
    requires Inv(cfg, base, s, seen, processed, counted)
    requires Assemblable(cfg, base, children, counted) && |children| > 0
    requires Run(cfg, s, seen, children) == Ok(done)
    ensures Inv(cfg, base, next.0, next.1, processed + [children[0]], counted)
    ensures Assemblable(cfg, base, children[1..], counted)
    ensures Run(cfg, next.0, next.1, children[1..]) == Ok(done)
  {
    AssemblableSplit(cfg, base, children, counted);
    assert Step(cfg, s, seen, children[0]).Ok?;
    next := Step(cfg, s, seen, children[0]).value;
    assert Inv(cfg, base, next.0, next.1, processed + [children[0]], counted) by {
      StepKeeps(cfg, base, s, seen, processed, counted, children[0], next);
    }
    RunUnfold(cfg, s, seen, children);
  }

  /** A successful run of the whole loop keeps the invariant. */
  lemma {:induction false} RunKeeps(cfg: Config, base: nat, s: State, seen: bool, processed: seq<Node>, counted: bool,
                                    children: seq<Node>, done: (State, bool))
    requires Inv(cfg, base, s, seen, processed, counted)
    requires Assemblable(cfg, base, children, counted)
    requires Run(cfg, s, seen, children) == Ok(done)
    ensures Inv(cfg, base, done.0, done.1, processed + children, counted)
    decreases |children|
  {
    if |children| == 0 {
      assert processed + children == processed;
    } else {
      var next := RunHead(cfg, base, s, seen, processed, counted, children, done);
      RunKeeps(cfg, base, next.0, next.1, processed + [children[0]], counted, children[1..], done);
      AppendFirst(processed, children);
    }
  }

  /** Before the first child nothing is open and nothing has been seen. */
  lemma StartInv(cfg: Config, base: nat, counted: bool)
    ensures Inv(cfg, base, Start(base), false, [], counted)
  {
    var s := Start(base);
    var none: seq<Node> := [];
    assert Leading(cfg, none) == none;
    assert Flatten(none, base) + FlattenFrames([], base) == none;
    assert RootOK(cfg, base, none, none, counted) by {
      assert none[..0] == none;
    }
    assert ChainOK(cfg, base, s);
    CoreIntro(cfg, base, s, none, counted, none);
    assert Container(s, 0) == none;
  }

  /** The loop invariant holds at the start, and after a successful loop
      every open section is attached. */
  lemma AssembleInv(cfg: Config, root: Node, base: nat, counted: bool, done: (State, bool))
    requires Assemblable(cfg, base, root.children, counted)
    requires Run(cfg, Start(base), false, root.children) == Ok(done)
    ensures CoreInv(cfg, base, CloseAll(done.0), root.children, counted)
    ensures NoOpening(cfg, root.children) ==> CloseAll(done.0).root == root.children
  {
    StartInv(cfg, base, counted);
    assert [] + root.children == root.children;
    RunKeeps(cfg, base, Start(base), false, [], counted, root.children, done);
    CloseAllKeeps(cfg, base, done.0, root.children, counted);
  }

  /** Every successful pass keeps every original child, once and in
      document order; the children before the first opening heading stay in
      place; after them come only well-formed sections, each beginning with
      the heading that opened it and holding every later sibling up to the
      next heading of its level or a shallower one (`SectionsAfter`).
      Without an opening heading the children are unchanged. */
  lemma AssembleSpec(cfg: Config, root: Node, base: nat, out: Node)
    requires Assemblable(cfg, base, root.children, false)
    requires Assemble(cfg, root, base) == Ok(out)
    ensures var lead := Leading(cfg, root.children);
            && Flatten(out.children, base) == root.children
            && |lead| <= |out.children| && out.children[..|lead|] == lead
            && (forall i :: |lead| <= i < |out.children| ==> GoodSection(cfg, base, out.children[i]))
            && SectionsAfter(cfg, base, out.children)
            && (NoOpening(cfg, root.children) ==> out.children == root.children)
  {
    assert Run(cfg, Start(base), false, root.children).Ok?;
    var done := Run(cfg, Start(base), false, root.children).value;
    AssembleInv(cfg, root, base, false, done);
  }

  /* --------------------------------------------------- the ValueError */

  /** The class of every open section has counter words `int()` accepts. */
  predicate FramesValid(frames: seq<Frame>) {
    forall i :: 0 <= i < |frames| ==> "class" in frames[i].section.attrs && ValidClass(frames[i].section.attrs["class"])
  }

  /** Every section-opening child's section class is valid. */
  predicate HeadingsValid(cfg: Config, children: seq<Node>) {
    forall i :: 0 <= i < |children| ==>
      IsOpening(cfg, children[i].tag) ==> ValidClass(SectionClass(cfg, children[i]))
  }

  lemma EndSectionValid(s: State)
    requires FramesValid(s.frames)
    ensures FramesValid(EndSection(s).frames)
  {
    var r := EndSection(s);
    var n := |s.frames|;
    if n >= 2 {
      forall i | 0 <= i < |r.frames|
        ensures "class" in r.frames[i].section.attrs && ValidClass(r.frames[i].section.attrs["class"])
      {
        if i < n - 2 {
          assert r.frames[i] == s.frames[i];
        } else {
          assert r.frames[i].section.attrs == s.frames[n - 2].section.attrs;
        }
      }
    }
  }

  lemma {:induction false} CloseFromValid(s: State, level: int)
    requires FramesValid(s.frames)
    ensures FramesValid(CloseFrom(s, level).frames)
    decreases |s.frames|
  {
    if |s.frames| > 0 && CurrentLevel(s) >= level {
      EndSectionValid(s);
      CloseFromValid(EndSection(s), level);
    }
  }

  /** Bumping a valid class cannot fail, and gives a valid class. */
  lemma BumpValid(c: State) returns (p: State)
    requires FramesValid(c.frames) && |c.frames| > 0
    ensures BumpCurrent(c) == Ok(p) && FramesValid(p.frames)
  {
    var n := |c.frames|;
    var top := c.frames[n - 1];
    var cls := top.section.attrs["class"];
    assert Get(top.section.attrs, "class", NoClass) == cls;
    var count, bumped := BumpHasSpec(cls);
    p := BumpCurrent(c).value;
    forall i | 0 <= i < n
      ensures "class" in p.frames[i].section.attrs && ValidClass(p.frames[i].section.attrs["class"])
    {
      if i < n - 1 {
        assert p.frames[i] == c.frames[i];
      }
    }
  }

  /** `begin_section` for a heading with a valid class, on open sections
      with valid classes, raises no ValueError. */
  lemma BeginValid(cfg: Config, s: State, h: Node) returns (r: State)
    requires IsOpening(cfg, h.tag) && FramesValid(s.frames) && ValidClass(SectionClass(cfg, h))
    ensures BeginSection(cfg, s, h) == Ok(r) && FramesValid(r.frames)
  {
    var level := Level(cfg, h.tag);
    var c := CloseFrom(s, level);
    CloseFromValid(s, level);
    var p: State;
    if |c.frames| == 0 {
      BeginShapeTop(cfg, s, h);
      p := c;
    } else {
      p := BumpValid(c);
      BeginShapeNested(cfg, s, h);
    }
    r := BeginSection(cfg, s, h).value;
    var f := Frame(MakeSection(cfg, h, p.nextId), level);
    assert r.frames == p.frames + [f];
    PushValid(p.frames, f);
  }

  lemma PushValid(frames: seq<Frame>, f: Frame)
    requires FramesValid(frames) && "class" in f.section.attrs && ValidClass(f.section.attrs["class"])
    ensures FramesValid(frames + [f])
  {
    var r := frames + [f];
    forall i | 0 <= i < |r|
      ensures "class" in r[i].section.attrs && ValidClass(r[i].section.attrs["class"])
    {
      if i < |frames| {
        assert r[i] == frames[i];
      }
    }
  }

  lemma AddValid(s: State, e: Node)
    requires FramesValid(s.frames) && |s.frames| > 0
    ensures FramesValid(AddElement(s, e).frames)
  {
    var r := AddElement(s, e);
    forall i | 0 <= i < |r.frames|
      ensures "class" in r.frames[i].section.attrs && ValidClass(r.frames[i].section.attrs["class"])
    {
      if i < |s.frames| - 1 {
        assert r.frames[i] == s.frames[i];
      }
    }
  }

  lemma StepValid(cfg: Config, s: State, seen: bool, child: Node) returns (next: (State, bool))
    requires seen ==> |s.frames| > 0
    requires NoOpeningBelow(cfg, child) && FramesValid(s.frames)
    requires IsOpening(cfg, child.tag) ==> ValidClass(SectionClass(cfg, child))
    ensures Step(cfg, s, seen, child) == Ok(next) && FramesValid(next.0.frames)
  {
    if IsOpening(cfg, child.tag) {
      var r := BeginValid(cfg, s, child);
      AddValid(r, child);
    } else if seen {
      AddValid(s, child);
    }
    next := Step(cfg, s, seen, child).value;
  }

  /** The loop raises no ValueError when every heading class is valid. */
  lemma {:induction false} RunValid(cfg: Config, s: State, seen: bool, children: seq<Node>)
    requires seen ==> |s.frames| > 0
    requires forall i :: 0 <= i < |children| ==> NoOpeningBelow(cfg, children[i])
    requires FramesValid(s.frames) && HeadingsValid(cfg, children)
    ensures Run(cfg, s, seen, children).Ok?
    decreases |children|
  {
    if |children| > 0 {
      var next := StepValid(cfg, s, seen, children[0]);
      assert HeadingsValid(cfg, children[1..]) by {
        forall i | 0 <= i < |children[1..]|
          ensures IsOpening(cfg, children[1..][i].tag) ==> ValidClass(SectionClass(cfg, children[1..][i]))
        {
          assert children[1..][i] == children[i + 1];
        }
      }
      assert forall i :: 0 <= i < |children[1..]| ==> NoOpeningBelow(cfg, children[1..][i]);
      RunValid(cfg, next.0, next.1, children[1..]);
    }
  }

  /** The pass raises the ValueError of line 148 only for a heading whose
      class carries a counter word that is not a number: with every heading
      class valid it succeeds. */
  lemma AssembleOk(cfg: Config, root: Node, base: nat)
    requires forall i :: 0 <= i < |root.children| ==> NoOpeningBelow(cfg, root.children[i])
    requires HeadingsValid(cfg, root.children)
    ensures Assemble(cfg, root, base).Ok?
  {
    RunValid(cfg, Start(base), false, root.children);
  }

  /** A class with no counter word is valid. */
  lemma {:induction false} NoCounterValid(words: seq<string>)
    requires HasWords(words) == []
    ensures ValidWords(words)
    decreases |words|
  {
    if |words| > 0 {
      assert !IsHasWord(words[0]);
      assert HasWords(words[1..]) == [];
      NoCounterValid(words[1..]);
    }
  }

  /* ---------------------------------------------------- the counters */

  /** With no counter words in the heading classes to begin with, the pass
      succeeds and every section's `hasN` names its number of child
      sections. */
  lemma AssembleCounts(cfg: Config, root: Node, base: nat)
    requires Assemblable(cfg, base, root.children, true)
    ensures Assemble(cfg, root, base).Ok?
    ensures var out := Assemble(cfg, root, base).value;
            forall i :: |Leading(cfg, root.children)| <= i < |out.children| ==> Counted(base, out.children[i])
  {
    forall i | 0 <= i < |root.children| && IsOpening(cfg, root.children[i].tag)
      ensures ValidClass(SectionClass(cfg, root.children[i]))
    {
      assert ChildOK(cfg, base, root.children[i], true);
      NoCounterValid(Split(SectionClass(cfg, root.children[i])));
    }
    AssembleOk(cfg, root, base);
    var done := Run(cfg, Start(base), false, root.children).value;
    AssembleInv(cfg, root, base, true, done);
  }

  /** A counted section's class reads back, through the counter loop, as its
      number of child sections. */
  lemma CountedReadsBack(base: nat, n: Node)
    requires Counted(base, n)
    ensures "class" in n.attrs && HasCount(n.attrs["class"]) == Some(CountSections(base, n.children))
  {
    CanonicalCount(n.attrs["class"], CountSections(base, n.children));
  }
}
