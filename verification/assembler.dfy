/** `SectionsAssember`: the single pass that wraps each section-opening
    heading, and every sibling after it, in nested `<section>` elements.

    The source keeps `current_section`, `current_level` and a stack of
    `(section, level)` pairs, and attaches every new section to its parent at
    once. Here the open sections are a list of frames, outermost first: the
    last frame is `current_section` with `current_level`, the ones before it
    are the stack. New sections always become the last child of their parent,
    and content always goes to the current section, so the open sections form
    the rightmost chain of the tree; attaching a section to its parent when it
    is closed, instead of when it is opened, therefore builds the same tree. */
module Assembler {
  import opened Strings
  import opened Tree
  import opened Sections

  /** An open section and its level. */
  datatype Frame = Frame(section: Node, level: int)

  /** The assembler state: the open sections, the children of the node being
      assembled as they stand so far, and the id the next section gets
      (sections are new nodes; ids only serve to recognise moved nodes). */
  datatype State = State(frames: seq<Frame>, root: seq<Node>, nextId: nat)

  /** The result of a pass: the rewritten tree, or the ValueError that
      `int()` raises on a malformed `has*` class word. */
  datatype Outcome<T> = Ok(value: T) | ValueError(badClass: string)

  /** `__init__`: no open section, level 0. */
  function Start(base: nat): (s: State)
    ensures s.frames == [] && s.root == [] && s.nextId == base
  {
    State([], [], base)
  }

  /** `current_level`: 0 when no section is open. */
  function CurrentLevel(s: State): int {
    if |s.frames| == 0 then 0 else s.frames[|s.frames| - 1].level
  }

  /** Levels strictly increase from the outermost open section inward. */
  predicate Increasing(frames: seq<Frame>) {
    forall i, j :: 0 <= i < j < |frames| ==> frames[i].level < frames[j].level
  }

  /** `end_section`: nothing when no section is open; otherwise the current
      section is closed (attached as the last child of the section below it,
      or of the node being assembled) and the previous `(section, level)` is
      restored, or `(None, 0)` when there is none. */
  function EndSection(s: State): (r: State)
    ensures |s.frames| == 0 ==> r == s
    ensures |s.frames| > 0 ==> |r.frames| == |s.frames| - 1
    ensures forall i :: 0 <= i < |r.frames| ==> r.frames[i].level == s.frames[i].level
    ensures forall i :: 0 <= i < |r.frames| - 1 ==> r.frames[i] == s.frames[i]
    ensures |s.frames| == 1 ==> r.root == s.root + [s.frames[0].section] && CurrentLevel(r) == 0
    ensures |s.frames| >= 2 ==> r.root == s.root && CurrentLevel(r) == s.frames[|s.frames| - 2].level
    ensures |s.frames| >= 2 ==>
      r.frames[|r.frames| - 1].section == Append(s.frames[|s.frames| - 2].section, s.frames[|s.frames| - 1].section)
    ensures r.nextId == s.nextId
  {
    var n := |s.frames|;
    if n == 0 then s
    else if n == 1 then State([], s.root + [s.frames[0].section], s.nextId)
    else
      var parent := s.frames[n - 2];
      s.(frames := s.frames[..n - 2] + [Frame(Append(parent.section, s.frames[n - 1].section), parent.level)])
  }

  /** The loop at lines 138-140: close sections while the current one has a
      level at or above `level`. Exactly the open sections of level >= `level`
      are closed when levels increase inward. */
  function CloseFrom(s: State, level: int): (r: State)
    ensures |r.frames| <= |s.frames|
    ensures |r.frames| == 0 || CurrentLevel(r) < level
    ensures forall i :: 0 <= i < |r.frames| ==> r.frames[i].level == s.frames[i].level
    ensures forall i :: 0 <= i < |r.frames| - 1 ==> r.frames[i] == s.frames[i]
    ensures Increasing(s.frames) ==> forall i :: |r.frames| <= i < |s.frames| ==> s.frames[i].level >= level
    ensures r.nextId == s.nextId
    decreases |s.frames|
  {
    if |s.frames| > 0 && CurrentLevel(s) >= level then CloseFrom(EndSection(s), level) else s
  }

  /** Lines 144-154 applied to the current section: its class attribute
      (`has0` when absent) gets its counter raised by one. */
  function BumpCurrent(s: State): (r: Outcome<State>)
    requires |s.frames| > 0
    ensures r.Ok? <==> BumpHas(Get(s.frames[|s.frames| - 1].section.attrs, "class", NoClass)).Some?
    ensures r.Ok? ==> |r.value.frames| == |s.frames| && r.value.root == s.root && r.value.nextId == s.nextId
    ensures r.Ok? ==> forall i :: 0 <= i < |s.frames| - 1 ==> r.value.frames[i] == s.frames[i]
    ensures r.Ok? ==> var top := s.frames[|s.frames| - 1]; var top' := r.value.frames[|s.frames| - 1];
                      top'.level == top.level && top'.section.children == top.section.children
                      && top'.section.id == top.section.id && top'.section.tag == top.section.tag
                      && top'.section.attrs == top.section.attrs["class" := BumpHas(Get(top.section.attrs, "class", NoClass)).value]
  {
    var n := |s.frames|;
    var top := s.frames[n - 1];
    var cls := Get(top.section.attrs, "class", NoClass);
    match BumpHas(cls)
    case None => ValueError(cls)
    case Some(bumped) =>
      var section := top.section.(attrs := top.section.attrs["class" := bumped]);
      Ok(s.(frames := s.frames[..n - 1] + [Frame(section, top.level)]))
  }

  /** `begin_section`: close the sections at the heading's level or deeper;
      if a section is still open, bump its counter and nest the new section
      in it; then open the section made for `header` at the heading's level. */
  function BeginSection(cfg: Config, s: State, header: Node): (r: Outcome<State>)
    requires IsOpening(cfg, header.tag)
    ensures r.Ok? ==> |r.value.frames| > 0 && CurrentLevel(r.value) == Level(cfg, header.tag)
    ensures r.Ok? ==> r.value.frames[|r.value.frames| - 1].section == MakeSection(cfg, header, s.nextId)
    ensures r.Ok? ==> r.value.nextId == s.nextId + 1
  {
    var level := Level(cfg, header.tag);
    var closed := CloseFrom(s, level);
    var parented := if |closed.frames| == 0 then Ok(closed) else BumpCurrent(closed);
    match parented
    case ValueError(c) => ValueError(c)
    case Ok(p) =>
      Ok(p.(frames := p.frames + [Frame(MakeSection(cfg, header, p.nextId), level)], nextId := p.nextId + 1))
  }

  /** `add_element`: the element is moved into the current section, as its
      last child. */
  function AddElement(s: State, e: Node): (r: State)
    requires |s.frames| > 0
    ensures |r.frames| == |s.frames| && r.root == s.root && r.nextId == s.nextId
    ensures forall i :: 0 <= i < |s.frames| - 1 ==> r.frames[i] == s.frames[i]
    ensures r.frames[|s.frames| - 1]
            == Frame(Append(s.frames[|s.frames| - 1].section, e), s.frames[|s.frames| - 1].level)
  {
    var n := |s.frames|;
    s.(frames := s.frames[..n - 1] + [Frame(Append(s.frames[n - 1].section, e), s.frames[n - 1].level)])
  }

  /** No heading below `n` opens a section. The assembler state is shared by
      the recursive calls at line 182, so a section-opening heading nested
      inside a child would rewrite the enclosing level; inputs are restricted
      to trees whose section-opening headings are all direct children of the
      node being assembled. */
  predicate NoOpeningBelow(cfg: Config, n: Node)
    decreases n
  {
    forall i :: 0 <= i < |n.children| ==>
      !IsOpening(cfg, n.children[i].tag) && NoOpeningBelow(cfg, n.children[i])
  }

  /** None of `ps` is a section-opening heading. */
  predicate NoOpening(cfg: Config, ps: seq<Node>) {
    forall k :: 0 <= k < |ps| ==> !IsOpening(cfg, ps[k].tag)
  }

  /** The recursive `self.assemble(child)` of line 182, run only when the
      child has children: the same loop over the child's own children, on
      the shared assembler state, with the child's own local `section`
      starting as None. Without an opening heading below the child it
      changes neither the state nor the child. */
  function Nested(cfg: Config, s: State, n: Node): (r: Outcome<(State, Node)>)
    requires NoOpeningBelow(cfg, n)
    ensures r == Ok((s, n))
    decreases Size(n), 0
  {
    if |n.children| == 0 then Ok((s, n))
    else
      assert NoOpening(cfg, n.children);
      assert [] + n.children == n.children;
      match Run(cfg, s.(root := []), false, n.children)
      case ValueError(c) => ValueError(c)
      case Ok(done) => Ok((done.0.(root := s.root), n.(children := done.0.root)))
  }

  /** One iteration of the loop at lines 175-182. `seen` is the local
      `section is not None`: once a heading has opened a section, every later
      sibling is moved into the current section; before that, siblings stay
      where they are. The source moves the child (line 180) before it
      assembles it (line 182); here the child is assembled first and then
      placed. The order does not matter: under `NoOpeningBelow` the nested
      run leaves both the state and the child unchanged (`Nested`). */
  function Step(cfg: Config, s: State, seen: bool, child: Node): (r: Outcome<(State, bool)>)
    requires seen ==> |s.frames| > 0
    requires NoOpeningBelow(cfg, child)
    ensures r.Ok? ==> r.value.1 == (seen || IsOpening(cfg, child.tag))
    ensures r.Ok? && r.value.1 ==> |r.value.0.frames| > 0
    ensures r.Ok? && !r.value.1 ==> r.value.0 == s.(root := s.root + [child])
    decreases Size(child), 1
  {
    var begun := if IsOpening(cfg, child.tag) then BeginSection(cfg, s, child) else Ok(s);
    match begun
    case ValueError(c) => ValueError(c)
    case Ok(s1) =>
      var open := seen || IsOpening(cfg, child.tag);
      match Nested(cfg, s1, child)
      case ValueError(c) => ValueError(c)
      case Ok(nested) =>
        var (s2, d) := nested;
        if open then Ok((AddElement(s2, d), true))
        else Ok((s2.(root := s2.root + [d]), false))
  }

  /** The loop at lines 175-182 over the (snapshotted) children list. Before
      any section is opened, children that open none stay where they are and
      leave the state as it was. */
  function Run(cfg: Config, s: State, seen: bool, children: seq<Node>): (r: Outcome<(State, bool)>)
    requires seen ==> |s.frames| > 0
    requires forall i :: 0 <= i < |children| ==> NoOpeningBelow(cfg, children[i])
    ensures r.Ok? && r.value.1 ==> |r.value.0.frames| > 0
    ensures !seen && NoOpening(cfg, children) ==>
              r == Ok((s.(root := s.root + children), false))
    decreases SizeAll(children), 2
  {
    if |children| == 0 then
      assert s.root + children == s.root;
      Ok((s, seen))
    else
      match Step(cfg, s, seen, children[0])
      case ValueError(c) => ValueError(c)
      case Ok(next) =>
        assert s.root + [children[0]] + children[1..] == s.root + children;
        Run(cfg, next.0, next.1, children[1..])
  }

  /** Attach every section still open: in the source they were attached when
      opened, so this only makes the functional tree complete. */
  function CloseAll(s: State): (r: State)
    ensures r.frames == []
    decreases |s.frames|
  {
    if |s.frames| == 0 then s else CloseAll(EndSection(s))
  }

  /** `SectionsTreeprocessor.run`: a fresh assembler runs `assemble` on the
      document root. New sections get ids from `base` on. */
  function Assemble(cfg: Config, root: Node, base: nat): (r: Outcome<Node>)
    requires forall i :: 0 <= i < |root.children| ==> NoOpeningBelow(cfg, root.children[i])
    ensures r.Ok? ==> r.value.id == root.id && r.value.tag == root.tag && r.value.attrs == root.attrs
  {
    match Run(cfg, Start(base), false, root.children)
    case ValueError(c) => ValueError(c)
    case Ok(done) => Ok(root.(children := CloseAll(done.0).root))
  }
}
