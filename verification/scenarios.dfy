/** The "Two sections" and "Three sections" examples of the module
    docstring (sections.py lines 35-71), run through the model end to end.
    Headings `# Some Header`, `## Some second level header` and
    `## Another second level header` carry the ids the `headerid` extension
    gives them; paragraphs are `p` nodes. The level-1 section holds its
    heading, its paragraph and the level-2 sections; its class counts them
    (`level1 has1`, then `level1 has2`). */
module Scenarios {
  import opened Strings
  import opened Tree
  import opened Sections
  import opened Assembler
  import opened AssemblyProofs

  lemma HeadingTwo()
    ensures IsOpening(DefaultConfig, "h2") && Level(DefaultConfig, "h2") == 2
  {
    assert IntToString(2) == "2";
    assert "h" + IntToString(2) == "h2";
    LevelOfHeading(DefaultConfig, 2);
  }

  lemma LevelTwoClass(h: Node)
    requires h.tag == "h2" && HeaderClass(h) == ""
    ensures IsOpening(DefaultConfig, h.tag)
    ensures SectionClass(DefaultConfig, h) == "level2"
  {
    HeadingTwo();
    assert IntToString(2) == "2";
    assert "level" + IntToString(2) == "level2";
    StripUnchanged("level2");
  }

  /** A tag that does not start with `h` never opens a section. */
  lemma NotHeading(cfg: Config, tag: string)
    requires |tag| > 0 && tag[0] != 'h'
    ensures !IsOpening(cfg, tag)
  {
    if IsOpening(cfg, tag) {
      var k := OpeningShape(cfg, tag);
    }
  }

  lemma TwoStep1(cfg: Config, h1: Node, base: nat)
    requires IsOpening(cfg, h1.tag) && Level(cfg, h1.tag) == 1 && h1.children == []
    ensures Step(cfg, Start(base), false, h1).Ok?
    ensures var r := Step(cfg, Start(base), false, h1).value;
            && r.1
            && r.0.frames == [Frame(Append(MakeSection(cfg, h1, base), h1), 1)]
            && r.0.root == [] && r.0.nextId == base + 1
  {
    BeginShapeTop(cfg, Start(base), h1);
    var s1 := BeginSection(cfg, Start(base), h1).value;
    assert s1.frames == [Frame(MakeSection(cfg, h1, base), 1)];
  }

  /** A sibling after the first heading, with no children of its own, is
      moved into the current section. */
  lemma StepAdd(cfg: Config, s: State, child: Node)
    requires |s.frames| > 0 && child.children == [] && !IsOpening(cfg, child.tag)
    ensures Step(cfg, s, true, child) == Ok((AddElement(s, child), true))
  {
  }

  /** Bumping the counter of a single open section. */
  lemma BumpSingle(x: Node, n: nat, cls: string, bumped: string)
    requires "class" in x.attrs && x.attrs["class"] == cls && BumpHas(cls) == Some(bumped)
    ensures BumpCurrent(State([Frame(x, 1)], [], n))
            == Ok(State([Frame(x.(attrs := x.attrs["class" := bumped]), 1)], [], n))
  {
    var s := State([Frame(x, 1)], [], n);
    var f := Frame(x.(attrs := x.attrs["class" := bumped]), 1);
    assert Get(x.attrs, "class", NoClass) == cls;
    assert s.frames[..0] + [f] == [f];
  }

  /** The level-2 heading opens a section nested in the open level-1
      section, whose class `c1` is bumped to `c2`. */
  lemma TwoStep3(cfg: Config, x: Node, h2: Node, n: nat, c1: string, c2: string)
    requires IsOpening(cfg, h2.tag) && Level(cfg, h2.tag) == 2 && h2.children == []
    requires "class" in x.attrs && x.attrs["class"] == c1 && BumpHas(c1) == Some(c2)
    ensures Step(cfg, State([Frame(x, 1)], [], n), true, h2) == Ok((Open2(cfg, x, h2, n, c2), true))
  {
    var x' := x.(attrs := x.attrs["class" := c2]);
    BumpSingle(x, n, c1, c2);
    BeginOnOne(cfg, Frame(x, 1), Frame(x', 1), n, h2);
    AddSecond(x', MakeSection(cfg, h2, n), h2, n + 1);
  }

  /** `begin_section` below the only open section, of a shallower level:
      that section is bumped and the new one opened inside it. */
  lemma BeginOnOne(cfg: Config, f: Frame, f': Frame, n: nat, h: Node)
    requires IsOpening(cfg, h.tag) && f.level < Level(cfg, h.tag)
    requires BumpCurrent(State([f], [], n)) == Ok(State([f'], [], n))
    ensures BeginSection(cfg, State([f], [], n), h)
            == Ok(State([f', Frame(MakeSection(cfg, h, n), Level(cfg, h.tag))], [], n + 1))
  {
    var s := State([f], [], n);
    var p := State([f'], [], n);
    var top := Frame(MakeSection(cfg, h, n), Level(cfg, h.tag));
    assert CloseFrom(s, Level(cfg, h.tag)) == s by {
      CloseNothing(s, Level(cfg, h.tag));
    }
    var r := State(p.frames + [Frame(MakeSection(cfg, h, p.nextId), Level(cfg, h.tag))], p.root, p.nextId + 1);
    assert BeginSection(cfg, s, h) == Ok(r) by {
      BeginNestedOn(cfg, s, h, p);
    }
    assert r == State([f', top], [], n + 1) by {
      PairFrames(f', top);
    }
  }

  /** Nothing is closed when the current level is below `level`. */
  lemma CloseNothing(s: State, level: int)
    requires |s.frames| > 0 && CurrentLevel(s) < level
    ensures CloseFrom(s, level) == s
  {
  }

  /** Closing the inner of two open sections nests it in the outer one. */
  lemma EndInner(x: Node, y: Node, n: nat)
    ensures EndSection(State([Frame(x, 1), Frame(y, 2)], [], n)) == State([Frame(Append(x, y), 1)], [], n)
  {
    var s := State([Frame(x, 1), Frame(y, 2)], [], n);
    assert s.frames[..0] == [];
  }

  lemma PairFrames(f: Frame, g: Frame)
    ensures [f] + [g] == [f, g]
  {
  }

  /** Adding to a stack of two frames appends to the inner one. */
  lemma AddSecond(a: Node, b: Node, e: Node, n: nat)
    ensures AddElement(State([Frame(a, 1), Frame(b, 2)], [], n), e)
            == State([Frame(a, 1), Frame(Append(b, e), 2)], [], n)
  {
    assert [Frame(a, 1), Frame(b, 2)][..1] == [Frame(a, 1)];
  }

  /** The open `h1` section after the first child. */
  function Open1(cfg: Config, h1: Node, base: nat): State
    requires IsOpening(cfg, h1.tag)
  {
    State([Frame(Append(MakeSection(cfg, h1, base), h1), 1)], [], base + 1)
  }

  /** The level-1 heading opens the first section. */
  lemma TwoStage1(cfg: Config, h1: Node, rest: seq<Node>, base: nat)
    requires IsOpening(cfg, h1.tag) && Level(cfg, h1.tag) == 1 && h1.children == []
    requires forall i :: 0 <= i < |rest| ==> NoOpeningBelow(cfg, rest[i])
    ensures forall i :: 0 <= i < |[h1] + rest| ==> NoOpeningBelow(cfg, ([h1] + rest)[i])
    ensures Run(cfg, Start(base), false, [h1] + rest) == Run(cfg, Open1(cfg, h1, base), true, rest)
  {
    TwoStep1(cfg, h1, base);
    assert Step(cfg, Start(base), false, h1) == Ok((Open1(cfg, h1, base), true));
    RunUnfold(cfg, Start(base), false, [h1] + rest);
    assert ([h1] + rest)[1..] == rest;
  }

  /** A child with no heading is moved into the open section. */
  lemma TwoStageAdd(cfg: Config, s: State, p: Node, rest: seq<Node>)
    requires |s.frames| > 0 && p.children == [] && !IsOpening(cfg, p.tag)
    requires forall i :: 0 <= i < |rest| ==> NoOpeningBelow(cfg, rest[i])
    ensures forall i :: 0 <= i < |[p] + rest| ==> NoOpeningBelow(cfg, ([p] + rest)[i])
    ensures Run(cfg, s, true, [p] + rest) == Run(cfg, AddElement(s, p), true, rest)
  {
    StepAdd(cfg, s, p);
    RunUnfold(cfg, s, true, [p] + rest);
    assert ([p] + rest)[1..] == rest;
  }

  /** The nested `h2` section opened inside the bumped `h1` section. */
  function Open2(cfg: Config, x: Node, h2: Node, n: nat, c2: string): State
    requires IsOpening(cfg, h2.tag)
  {
    State([Frame(x.(attrs := x.attrs["class" := c2]), 1), Frame(Append(MakeSection(cfg, h2, n), h2), 2)], [], n + 1)
  }

  /** The level-2 heading opens a section nested in the level-1 one. */
  lemma TwoStage3(cfg: Config, x: Node, h2: Node, rest: seq<Node>, n: nat, c1: string, c2: string)
    requires IsOpening(cfg, h2.tag) && Level(cfg, h2.tag) == 2 && h2.children == []
    requires forall i :: 0 <= i < |rest| ==> NoOpeningBelow(cfg, rest[i])
    requires "class" in x.attrs && x.attrs["class"] == c1 && BumpHas(c1) == Some(c2)
    ensures forall i :: 0 <= i < |[h2] + rest| ==> NoOpeningBelow(cfg, ([h2] + rest)[i])
    ensures Run(cfg, State([Frame(x, 1)], [], n), true, [h2] + rest) == Run(cfg, Open2(cfg, x, h2, n, c2), true, rest)
  {
    TwoStep3(cfg, x, h2, n, c1, c2);
    RunStepTo(cfg, State([Frame(x, 1)], [], n), true, h2, rest, Open2(cfg, x, h2, n, c2), true);
  }

  /** The loop over `[c] + rest` after its first step. */
  lemma RunStepTo(cfg: Config, s: State, seen: bool, c: Node, rest: seq<Node>, s': State, seen': bool)
    requires seen ==> |s.frames| > 0
    requires NoOpeningBelow(cfg, c) && forall i :: 0 <= i < |rest| ==> NoOpeningBelow(cfg, rest[i])
    requires Step(cfg, s, seen, c) == Ok((s', seen'))
    ensures forall i :: 0 <= i < |[c] + rest| ==> NoOpeningBelow(cfg, ([c] + rest)[i])
    ensures seen' ==> |s'.frames| > 0
    ensures Run(cfg, s, seen, [c] + rest) == Run(cfg, s', seen', rest)
  {
    var xs := [c] + rest;
    forall i | 0 <= i < |xs|
      ensures NoOpeningBelow(cfg, xs[i])
    {
      if i > 0 {
        assert xs[i] == rest[i - 1];
      }
    }
    assert Run(cfg, s, seen, xs) == Run(cfg, s', seen', rest) by {
      assert xs[0] == c;
      assert xs[1..] == rest;
    }
  }

  lemma RunNil(cfg: Config, s: State, seen: bool)
    requires seen ==> |s.frames| > 0
    ensures Run(cfg, s, seen, []) == Ok((s, seen))
  {
  }

  /** Closing the two open sections nests the inner one in the outer one. */
  lemma CloseTwo(a: Node, b: Node, n: nat)
    ensures CloseAll(State([Frame(a, 1), Frame(b, 2)], [], n)).root == [Append(a, b)]
  {
    var s := State([Frame(a, 1), Frame(b, 2)], [], n);
    var e1 := EndSection(s);
    assert e1.frames == [Frame(Append(a, b), 1)] && e1.root == [];
    var e2 := EndSection(e1);
    assert e2.root == [Append(a, b)] && e2.frames == [];
    assert CloseAll(s) == CloseAll(e1) == CloseAll(e2) == e2;
  }

  /** The last child is moved into the open section. */
  lemma TwoStageLast(cfg: Config, s: State, p: Node)
    requires |s.frames| > 0 && p.children == [] && !IsOpening(cfg, p.tag)
    ensures NoOpeningBelow(cfg, p)
    ensures Run(cfg, s, true, [p]) == Ok((AddElement(s, p), true))
  {
    TwoStageAdd(cfg, s, p, []);
    RunNil(cfg, AddElement(s, p), true);
    assert [p] == [p] + [];
  }

  /** The first two children: the level-1 section is opened and the
      paragraph moved into it, whatever follows. */
  lemma TwoStagesFront(cfg: Config, h1: Node, p1: Node, rest: seq<Node>, base: nat)
    requires IsOpening(cfg, h1.tag) && Level(cfg, h1.tag) == 1 && h1.children == []
    requires p1.children == [] && !IsOpening(cfg, p1.tag)
    requires forall i :: 0 <= i < |rest| ==> NoOpeningBelow(cfg, rest[i])
    ensures forall i :: 0 <= i < |[h1, p1] + rest| ==> NoOpeningBelow(cfg, ([h1, p1] + rest)[i])
    ensures Run(cfg, Start(base), false, [h1, p1] + rest)
            == Run(cfg, AddElement(Open1(cfg, h1, base), p1), true, rest)
  {
    ConsPair(h1, p1, rest);
    TwoStageAdd(cfg, Open1(cfg, h1, base), p1, rest);
    TwoStage1(cfg, h1, [p1] + rest, base);
  }

  lemma ConsPair<T>(a: T, b: T, rest: seq<T>)
    ensures [a, b] + rest == [a] + ([b] + rest)
  {
  }

  lemma ThreeFront<T>(a: T, b: T, c: T, rest: seq<T>)
    ensures [a, b] + ([c] + rest) == [a, b, c] + rest
  {
  }

  lemma SixChildren<T>(a: T, b: T, c: T, d: T, e: T, f: T)
    ensures [a, b, c] + ([d] + ([e] + [f])) == [a, b, c, d, e, f]
  {
  }

  /** After the loop, closing the open sections leaves one level-1 section
      at the top, with the level-2 section (heading and last paragraph) as
      its last child. */
  lemma TwoClose(cfg: Config, x: Node, h2: Node, p2: Node, n: nat, c2: string)
    requires IsOpening(cfg, h2.tag)
    ensures CloseAll(AddElement(Open2(cfg, x, h2, n, c2), p2)).root
            == [Append(x.(attrs := x.attrs["class" := c2]), Append(Append(MakeSection(cfg, h2, n), h2), p2))]
  {
    var last := AddElement(Open2(cfg, x, h2, n, c2), p2);
    var a := x.(attrs := x.attrs["class" := c2]);
    var b := Append(Append(MakeSection(cfg, h2, n), h2), p2);
    assert last == State([Frame(a, 1), Frame(b, 2)], [], n + 1);
    CloseTwo(a, b, n + 1);
  }

  /* ------------------------------------------------- generic composition */

  /** The section made for `h` at `id`, holding `h` and then `p`. */
  function Filled(cfg: Config, h: Node, id: nat, p: Node): Node
    requires IsOpening(cfg, h.tag)
  {
    Append(Append(MakeSection(cfg, h, id), h), p)
  }

  /** `x` with its class replaced by `c`. */
  function Reclassed(x: Node, c: string): Node {
    x.(attrs := x.attrs["class" := c])
  }

  /** A heading and a paragraph of the examples, for a configuration. */
  predicate Heading(cfg: Config, h: Node, level: int) {
    IsOpening(cfg, h.tag) && Level(cfg, h.tag) == level && h.children == []
  }

  predicate Paragraph(cfg: Config, p: Node) {
    !IsOpening(cfg, p.tag) && p.children == []
  }

  /** After the first heading and its paragraph: one open level-1 section. */
  lemma FrontState(cfg: Config, h1: Node, p1: Node, base: nat)
    requires IsOpening(cfg, h1.tag)
    ensures AddElement(Open1(cfg, h1, base), p1) == State([Frame(Filled(cfg, h1, base, p1), 1)], [], base + 1)
    ensures Filled(cfg, h1, base, p1).attrs["class"] == SectionClass(cfg, h1)
  {
    assert [Frame(Append(MakeSection(cfg, h1, base), h1), 1)][..0] == [];
  }

  /** The first three steps of both examples: `h1` and `p1` fill a level-1
      section, then `h2` opens a level-2 section inside it and bumps its
      class to `c2`. */
  lemma FirstThree(cfg: Config, h1: Node, p1: Node, h2: Node, rest: seq<Node>, base: nat, c2: string)
    requires Heading(cfg, h1, 1) && Paragraph(cfg, p1) && Heading(cfg, h2, 2)
    requires forall i :: 0 <= i < |rest| ==> NoOpeningBelow(cfg, rest[i])
    requires BumpHas(SectionClass(cfg, h1)) == Some(c2)
    ensures forall i :: 0 <= i < |[h1, p1, h2] + rest| ==> NoOpeningBelow(cfg, ([h1, p1, h2] + rest)[i])
    ensures Run(cfg, Start(base), false, [h1, p1, h2] + rest)
            == Run(cfg, Open2(cfg, Filled(cfg, h1, base, p1), h2, base + 1, c2), true, rest)
  {
    var x := Filled(cfg, h1, base, p1);
    TwoStage3(cfg, x, h2, rest, base + 1, SectionClass(cfg, h1), c2);
    FrontState(cfg, h1, p1, base);
    TwoStagesFront(cfg, h1, p1, [h2] + rest, base);
    ThreeFront(h1, p1, h2, rest);
  }

  /** The two open sections after the level-2 section received `p2`. */
  lemma SecondFilled(cfg: Config, x: Node, h2: Node, p2: Node, n: nat, c2: string)
    requires IsOpening(cfg, h2.tag)
    ensures AddElement(Open2(cfg, x, h2, n, c2), p2)
            == State([Frame(Reclassed(x, c2), 1), Frame(Filled(cfg, h2, n, p2), 2)], [], n + 1)
  {
    var last := AddElement(Open2(cfg, x, h2, n, c2), p2);
    assert last.frames[0] == Frame(Reclassed(x, c2), 1);
  }

  /** A second level-2 heading closes the open level-2 section `y` (nesting
      it in `x`), bumps the class of `x` from `c1` to `c2` and opens its own
      section. */
  lemma CloseAndOpen(cfg: Config, x: Node, y: Node, h: Node, n: nat, c1: string, c2: string)
    requires Heading(cfg, h, 2)
    requires "class" in x.attrs && x.attrs["class"] == c1 && BumpHas(c1) == Some(c2)
    ensures Step(cfg, State([Frame(x, 1), Frame(y, 2)], [], n), true, h)
            == Ok((Open2(cfg, Append(x, y), h, n, c2), true))
  {
    var s := State([Frame(x, 1), Frame(y, 2)], [], n);
    var s' := State([Frame(Append(x, y), 1)], [], n);
    assert BeginSection(cfg, s, h) == BeginSection(cfg, s', h) by {
      EndInner(x, y, n);
      CloseNothing(s', 2);
      assert CloseFrom(s, 2) == s';
    }
    assert Step(cfg, s, true, h) == Step(cfg, s', true, h) by {
      StepSameBegin(cfg, s, s', h);
    }
    assert Step(cfg, s', true, h) == Ok((Open2(cfg, Append(x, y), h, n, c2), true)) by {
      TwoStep3(cfg, Append(x, y), h, n, c1, c2);
    }
  }

  /** An opening heading steps the same way from two states that
      `begin_section` takes to the same place. */
  lemma StepSameBegin(cfg: Config, s: State, s': State, h: Node)
    requires Heading(cfg, h, 2) && |s.frames| > 0 && |s'.frames| > 0
    requires BeginSection(cfg, s, h) == BeginSection(cfg, s', h)
    ensures NoOpeningBelow(cfg, h)
    ensures Step(cfg, s, true, h) == Step(cfg, s', true, h)
  {
  }

  /** "Two sections" for any configuration and ids: the level-1 section
      holds `h1`, `p1` and the level-2 section holding `h2` and `p2`. */
  lemma TwoSectionsRun(cfg: Config, root: Node, base: nat, h1: Node, p1: Node, h2: Node, p2: Node, c2: string)
    requires root.children == [h1, p1, h2, p2]
    requires Heading(cfg, h1, 1) && Paragraph(cfg, p1) && Heading(cfg, h2, 2) && Paragraph(cfg, p2)
    requires BumpHas(SectionClass(cfg, h1)) == Some(c2)
    ensures forall i :: 0 <= i < |root.children| ==> NoOpeningBelow(cfg, root.children[i])
    ensures Assemble(cfg, root, base)
            == Ok(root.(children := [Append(Reclassed(Filled(cfg, h1, base, p1), c2), Filled(cfg, h2, base + 1, p2))]))
  {
    var x := Filled(cfg, h1, base, p1);
    var o := Open2(cfg, x, h2, base + 1, c2);
    TwoStageLast(cfg, o, p2);
    FirstThree(cfg, h1, p1, h2, [p2], base, c2);
    FourOf(h1, p1, h2, p2);
    TwoClose(cfg, x, h2, p2, base + 1, c2);
  }

  /** "Three sections" for any configuration and ids: the second level-2
      heading closes the first level-2 section and opens a sibling of it. */
  lemma ThreeSectionsRun(cfg: Config, root: Node, base: nat, h1: Node, p1: Node, h2: Node, p2: Node,
                         h3: Node, p3: Node, c2: string, c3: string)
    requires root.children == [h1, p1, h2, p2, h3, p3]
    requires Heading(cfg, h1, 1) && Paragraph(cfg, p1) && Heading(cfg, h2, 2) && Paragraph(cfg, p2)
    requires Heading(cfg, h3, 2) && Paragraph(cfg, p3)
    requires BumpHas(SectionClass(cfg, h1)) == Some(c2) && BumpHas(c2) == Some(c3)
    ensures forall i :: 0 <= i < |root.children| ==> NoOpeningBelow(cfg, root.children[i])
    ensures Assemble(cfg, root, base)
            == Ok(root.(children := [Append(Reclassed(Append(Reclassed(Filled(cfg, h1, base, p1), c2),
                                                            Filled(cfg, h2, base + 1, p2)), c3),
                                            Filled(cfg, h3, base + 2, p3))]))
  {
    var x := Filled(cfg, h1, base, p1);
    var x1 := Reclassed(x, c2);
    var y := Filled(cfg, h2, base + 1, p2);
    var o2 := Open2(cfg, x, h2, base + 1, c2);
    var two := State([Frame(x1, 1), Frame(y, 2)], [], base + 2);
    var o3 := Open2(cfg, Append(x1, y), h3, base + 2, c3);
    var tail := [p2] + ([h3] + [p3]);
    ThreeLeaves(cfg, p2, h3, p3);
    assert root.children == [h1, p1, h2] + tail by {
      SixChildren(h1, p1, h2, p2, h3, p3);
    }
    assert Run(cfg, Start(base), false, [h1, p1, h2] + tail) == Run(cfg, o2, true, tail) by {
      FirstThree(cfg, h1, p1, h2, tail, base, c2);
    }
    assert Run(cfg, o2, true, tail) == Run(cfg, two, true, [h3] + [p3]) by {
      SecondFilled(cfg, x, h2, p2, base + 1, c2);
      TwoStageAdd(cfg, o2, p2, [h3] + [p3]);
    }
    assert Run(cfg, two, true, [h3] + [p3]) == Ok((AddElement(o3, p3), true)) by {
      ThreeTail(cfg, x1, y, h3, p3, base + 2, c2, c3);
    }
    TwoClose(cfg, Append(x1, y), h3, p3, base + 2, c3);
  }

  /** Nodes without children have no opening heading below them. */
  lemma ThreeLeaves(cfg: Config, a: Node, b: Node, c: Node)
    requires a.children == [] && b.children == [] && c.children == []
    ensures forall i :: 0 <= i < |[a] + ([b] + [c])| ==> NoOpeningBelow(cfg, ([a] + ([b] + [c]))[i])
    ensures forall i :: 0 <= i < |[b] + [c]| ==> NoOpeningBelow(cfg, ([b] + [c])[i])
  {
    assert [a] + ([b] + [c]) == [a, b, c];
    assert [b] + [c] == [b, c];
  }

  /** The last two children of "Three sections": the second level-2
      heading closes `y` into `x` and opens its own section, which receives
      the paragraph. */
  lemma ThreeTail(cfg: Config, x: Node, y: Node, h3: Node, p3: Node, n: nat, c2: string, c3: string)
    requires Heading(cfg, h3, 2) && Paragraph(cfg, p3)
    requires "class" in x.attrs && x.attrs["class"] == c2 && BumpHas(c2) == Some(c3)
    ensures NoOpeningBelow(cfg, h3) && NoOpeningBelow(cfg, p3)
    ensures Run(cfg, State([Frame(x, 1), Frame(y, 2)], [], n), true, [h3] + [p3])
            == Ok((AddElement(Open2(cfg, Append(x, y), h3, n, c3), p3), true))
  {
    var o3 := Open2(cfg, Append(x, y), h3, n, c3);
    var two := State([Frame(x, 1), Frame(y, 2)], [], n);
    assert Run(cfg, o3, true, [p3]) == Ok((AddElement(o3, p3), true)) by {
      TwoStageLast(cfg, o3, p3);
    }
    assert Run(cfg, two, true, [h3] + [p3]) == Run(cfg, o3, true, [p3]) by {
      CloseAndOpen(cfg, x, y, h3, n, c2, c3);
      RunStepTo(cfg, two, true, h3, [p3], o3, true);
    }
  }

  /* ------------------------------------------------ the docstring inputs */

  const H1 := Node(0, "h1", map["id" := "some-header"], [])
  const P1 := Node(1, "p", map[], [])
  const H2 := Node(2, "h2", map["id" := "some-second-level-header"], [])
  const P2 := Node(3, "p", map[], [])
  const H3 := Node(4, "h2", map["id" := "another-second-level-header"], [])
  const P3 := Node(5, "p", map[], [])

  /** The section `MakeSection` builds, once its attributes are known. */
  lemma SectionIs(cfg: Config, h: Node, id: nat, attrs: map<string, string>)
    requires IsOpening(cfg, h.tag) && MakeSection(cfg, h, id).attrs == attrs
    ensures MakeSection(cfg, h, id) == Node(id, "section", attrs, [])
  {
  }

  lemma ExampleShapes()
    ensures Heading(DefaultConfig, H1, 1) && Heading(DefaultConfig, H2, 2) && Heading(DefaultConfig, H3, 2)
    ensures Paragraph(DefaultConfig, P1) && Paragraph(DefaultConfig, P2) && Paragraph(DefaultConfig, P3)
  {
    HeadingOne();
    HeadingTwo();
    NotHeading(DefaultConfig, "p");
  }

  lemma FirstSection(id: nat)
    ensures IsOpening(DefaultConfig, H1.tag)
    ensures MakeSection(DefaultConfig, H1, id)
            == Node(id, "section", map["id" := "section_some-header", "class" := "level1"], [])
  {
    var hid := "some-header";
    var out := "section_some-header";
    assert HeaderId(H1) == hid && HeaderClass(H1) == "";
    assert IsOpening(DefaultConfig, H1.tag) && SectionClass(DefaultConfig, H1) == "level1" by {
      LevelOnePlain(H1);
    }
    assert "section_" + hid == out by {
      SomeHeaderId();
    }
    SectionAttrs(DefaultConfig, H1, id, hid, "level1");
    SectionIs(DefaultConfig, H1, id, map["id" := out, "class" := "level1"]);
  }

  lemma SecondLevelSection(h: Node, id: nat, hid: string, out: string)
    requires h.tag == "h2" && HeaderClass(h) == "" && HeaderId(h) == hid && hid != ""
    requires "section_" + hid == out
    ensures IsOpening(DefaultConfig, h.tag)
    ensures MakeSection(DefaultConfig, h, id) == Node(id, "section", map["id" := out, "class" := "level2"], [])
  {
    LevelTwoClass(h);
    SectionAttrs(DefaultConfig, h, id, hid, "level2");
    SectionIs(DefaultConfig, h, id, map["id" := out, "class" := "level2"]);
  }

  lemma SecondSection(id: nat)
    ensures IsOpening(DefaultConfig, H2.tag)
    ensures MakeSection(DefaultConfig, H2, id)
            == Node(id, "section", map["id" := "section_some-second-level-header", "class" := "level2"], [])
  {
    SecondPrefix();
    SecondLevelSection(H2, id, "some-second-level-header", "section_some-second-level-header");
  }

  lemma ThirdSection(id: nat)
    ensures IsOpening(DefaultConfig, H3.tag)
    ensures MakeSection(DefaultConfig, H3, id)
            == Node(id, "section", map["id" := "section_another-second-level-header", "class" := "level2"], [])
  {
    ThirdPrefix();
    SecondLevelSection(H3, id, "another-second-level-header", "section_another-second-level-header");
  }

  lemma SecondPrefix()
    ensures "section_" + "some-second-level-header" == "section_some-second-level-header"
  {
  }

  lemma ThirdPrefix()
    ensures "section_" + "another-second-level-header" == "section_another-second-level-header"
  {
  }

  /** A section filled with its heading and paragraph, as a node. */
  lemma FilledIs(cfg: Config, h: Node, id: nat, p: Node, attrs: map<string, string>)
    requires IsOpening(cfg, h.tag) && MakeSection(cfg, h, id) == Node(id, "section", attrs, [])
    ensures Filled(cfg, h, id, p) == Node(id, "section", attrs, [h, p])
  {
    assert Append(Node(id, "section", attrs, []), h) == Node(id, "section", attrs, [h]);
  }

  /** Appending to a node and replacing its class, on an explicit node. */
  lemma AppendNode(id: nat, tag: string, attrs: map<string, string>, cs: seq<Node>, c: Node)
    ensures Append(Node(id, tag, attrs, cs), c) == Node(id, tag, attrs, cs + [c])
  {
  }

  lemma ReclassedNode(id: nat, tag: string, attrs: map<string, string>, cs: seq<Node>, c: string)
    ensures Reclassed(Node(id, tag, attrs, cs), c) == Node(id, tag, attrs["class" := c], cs)
  {
  }

  lemma ThreeOf<T>(a: T, b: T, c: T)
    ensures [a, b] + [c] == [a, b, c]
  {
  }

  lemma FourOf<T>(a: T, b: T, c: T, d: T)
    ensures [a, b, c] + [d] == [a, b, c, d]
  {
  }

  /** The tree of "Two sections" once the sections' attributes are known. */
  lemma TwoShape(cfg: Config, h1: Node, p1: Node, h2: Node, p2: Node, base: nat, c2: string,
                 m1: map<string, string>, m2: map<string, string>)
    requires IsOpening(cfg, h1.tag) && MakeSection(cfg, h1, base) == Node(base, "section", m1, [])
    requires IsOpening(cfg, h2.tag) && MakeSection(cfg, h2, base + 1) == Node(base + 1, "section", m2, [])
    ensures Append(Reclassed(Filled(cfg, h1, base, p1), c2), Filled(cfg, h2, base + 1, p2))
            == Node(base, "section", m1["class" := c2], [h1, p1, Node(base + 1, "section", m2, [h2, p2])])
  {
    var s2 := Node(base + 1, "section", m2, [h2, p2]);
    FilledIs(cfg, h1, base, p1, m1);
    FilledIs(cfg, h2, base + 1, p2, m2);
    ReclassedNode(base, "section", m1, [h1, p1], c2);
    AppendNode(base, "section", m1["class" := c2], [h1, p1], s2);
    ThreeOf(h1, p1, s2);
  }

  /** The tree of "Three sections" once the sections' attributes are known. */
  lemma ThreeShape(cfg: Config, h1: Node, p1: Node, h2: Node, p2: Node, h3: Node, p3: Node, base: nat,
                   c2: string, c3: string, m1: map<string, string>, m2: map<string, string>, m3: map<string, string>)
    requires IsOpening(cfg, h1.tag) && MakeSection(cfg, h1, base) == Node(base, "section", m1, [])
    requires IsOpening(cfg, h2.tag) && MakeSection(cfg, h2, base + 1) == Node(base + 1, "section", m2, [])
    requires IsOpening(cfg, h3.tag) && MakeSection(cfg, h3, base + 2) == Node(base + 2, "section", m3, [])
    ensures Append(Reclassed(Append(Reclassed(Filled(cfg, h1, base, p1), c2), Filled(cfg, h2, base + 1, p2)), c3),
                   Filled(cfg, h3, base + 2, p3))
            == Node(base, "section", m1["class" := c2]["class" := c3],
                    [h1, p1, Node(base + 1, "section", m2, [h2, p2]), Node(base + 2, "section", m3, [h3, p3])])
  {
    var s2 := Node(base + 1, "section", m2, [h2, p2]);
    var s3 := Node(base + 2, "section", m3, [h3, p3]);
    TwoShape(cfg, h1, p1, h2, p2, base, c2, m1, m2);
    FilledIs(cfg, h3, base + 2, p3, m3);
    ReclassedNode(base, "section", m1["class" := c2], [h1, p1, s2], c3);
    AppendNode(base, "section", m1["class" := c2]["class" := c3], [h1, p1, s2], s3);
    FourOf(h1, p1, s2, s3);
  }

  /** Replacing the class of a section's attributes. */
  lemma ClassReplaced(hid: string, c: string, c': string)
    ensures map["id" := hid, "class" := c]["class" := c'] == map["id" := hid, "class" := c']
  {
  }

  /** "Two sections" once the sections' attributes are known. */
  lemma TwoSectionsTree(cfg: Config, root: Node, base: nat, h1: Node, p1: Node, h2: Node, p2: Node, c2: string,
                        m1: map<string, string>, m2: map<string, string>)
    requires root.children == [h1, p1, h2, p2]
    requires Heading(cfg, h1, 1) && Paragraph(cfg, p1) && Heading(cfg, h2, 2) && Paragraph(cfg, p2)
    requires BumpHas(SectionClass(cfg, h1)) == Some(c2)
    requires MakeSection(cfg, h1, base) == Node(base, "section", m1, [])
    requires MakeSection(cfg, h2, base + 1) == Node(base + 1, "section", m2, [])
    ensures forall i :: 0 <= i < |root.children| ==> NoOpeningBelow(cfg, root.children[i])
    ensures Assemble(cfg, root, base)
            == Ok(root.(children := [Node(base, "section", m1["class" := c2], [h1, p1, Node(base + 1, "section", m2, [h2, p2])])]))
  {
    TwoSectionsRun(cfg, root, base, h1, p1, h2, p2, c2);
    TwoShape(cfg, h1, p1, h2, p2, base, c2, m1, m2);
  }

  /** "Three sections" once the sections' attributes are known. */
  lemma ThreeSectionsTree(cfg: Config, root: Node, base: nat, h1: Node, p1: Node, h2: Node, p2: Node,
                          h3: Node, p3: Node, c2: string, c3: string,
                          m1: map<string, string>, m2: map<string, string>, m3: map<string, string>)
    requires root.children == [h1, p1, h2, p2, h3, p3]
    requires Heading(cfg, h1, 1) && Paragraph(cfg, p1) && Heading(cfg, h2, 2) && Paragraph(cfg, p2)
    requires Heading(cfg, h3, 2) && Paragraph(cfg, p3)
    requires BumpHas(SectionClass(cfg, h1)) == Some(c2) && BumpHas(c2) == Some(c3)
    requires MakeSection(cfg, h1, base) == Node(base, "section", m1, [])
    requires MakeSection(cfg, h2, base + 1) == Node(base + 1, "section", m2, [])
    requires MakeSection(cfg, h3, base + 2) == Node(base + 2, "section", m3, [])
    ensures forall i :: 0 <= i < |root.children| ==> NoOpeningBelow(cfg, root.children[i])
    ensures Assemble(cfg, root, base)
            == Ok(root.(children := [Node(base, "section", m1["class" := c2]["class" := c3],
                                          [h1, p1, Node(base + 1, "section", m2, [h2, p2]),
                                           Node(base + 2, "section", m3, [h3, p3])])]))
  {
    ThreeSectionsRun(cfg, root, base, h1, p1, h2, p2, h3, p3, c2, c3);
    ThreeShape(cfg, h1, p1, h2, p2, h3, p3, base, c2, c3, m1, m2, m3);
  }

  /** The class the first section starts with. */
  lemma FirstClass()
    ensures IsOpening(DefaultConfig, H1.tag) && SectionClass(DefaultConfig, H1) == "level1"
  {
    LevelOnePlain(H1);
  }

  /** Doctest "Two sections" (lines 35-50): the level-1 section gets class
      `level1 has1` and holds the heading, the paragraph and the level-2
      section. */
  lemma TwoSections()
    ensures forall i :: 0 <= i < 4 ==> NoOpeningBelow(DefaultConfig, [H1, P1, H2, P2][i])
    ensures Assemble(DefaultConfig, Node(9, "div", map[], [H1, P1, H2, P2]), 10)
            == Ok(Node(9, "div", map[], [
                 Node(10, "section", map["id" := "section_some-header", "class" := "level1 has1"], [
                   H1, P1,
                   Node(11, "section", map["id" := "section_some-second-level-header", "class" := "level2"], [H2, P2])])]))
  {
    var root := Node(9, "div", map[], [H1, P1, H2, P2]);
    var id1 := "section_some-header";
    var m1 := map["id" := id1, "class" := "level1"];
    var m2 := map["id" := "section_some-second-level-header", "class" := "level2"];
    ExampleShapes();
    assert BumpHas(SectionClass(DefaultConfig, H1)) == Some("level1 has1") by {
      FirstClass();
      BumpFirstChild();
    }
    FirstSection(10);
    SecondSection(11);
    TwoSectionsTree(DefaultConfig, root, 10, H1, P1, H2, P2, "level1 has1", m1, m2);
    ClassReplaced(id1, "level1", "level1 has1");
  }

  /** Doctest "Three sections" (lines 52-71): the second level-2 heading
      closes the first level-2 section, the level-1 class becomes
      `level1 has2`, and both level-2 sections are children of the level-1
      one, in order. */
  lemma ThreeSections()
    ensures forall i :: 0 <= i < 6 ==> NoOpeningBelow(DefaultConfig, [H1, P1, H2, P2, H3, P3][i])
    ensures Assemble(DefaultConfig, Node(9, "div", map[], [H1, P1, H2, P2, H3, P3]), 10)
            == Ok(Node(9, "div", map[], [
                 Node(10, "section", map["id" := "section_some-header", "class" := "level1 has2"], [
                   H1, P1,
                   Node(11, "section", map["id" := "section_some-second-level-header", "class" := "level2"], [H2, P2]),
                   Node(12, "section", map["id" := "section_another-second-level-header", "class" := "level2"], [H3, P3])])]))
  {
    var root := Node(9, "div", map[], [H1, P1, H2, P2, H3, P3]);
    var id1 := "section_some-header";
    var m1 := map["id" := id1, "class" := "level1"];
    var m2 := map["id" := "section_some-second-level-header", "class" := "level2"];
    var m3 := map["id" := "section_another-second-level-header", "class" := "level2"];
    ExampleShapes();
    assert BumpHas(SectionClass(DefaultConfig, H1)) == Some("level1 has1") by {
      FirstClass();
      BumpFirstChild();
    }
    BumpSecondChild();
    FirstSection(10);
    SecondSection(11);
    ThirdSection(12);
    ThreeSectionsTree(DefaultConfig, root, 10, H1, P1, H2, P2, H3, P3, "level1 has1", "level1 has2", m1, m2, m3);
    ClassReplaced(id1, "level1", "level1 has1");
    ClassReplaced(id1, "level1 has1", "level1 has2");
  }
}
