# Sections extension for Python-Markdown, modelled in Dafny

`markdown/extensions/sections.py` rewrites the element tree that Markdown
produces. It wraps every section-opening heading (`h1` up to
`h<max_level>`), together with the siblings that follow it, in a
`<section>` element. Sections nest by heading level:
- a heading of level L closes every open section of level L or deeper;
- the section it opens goes inside the section that is still open.

Each new section gets:
- the id `section_<heading id>`;
- the class `<class_prefix><level>`, followed by the heading's own class.

An enclosing section counts its child sections with a `hasN` word in its
class attribute.

This project models that pass and proves what it does:

| file | contents |
|---|---|
| `strings.dfy` (`Strings`) | the Python 2 string operations the extension relies on (`lower`, `strip`, `split(' ')`, `' '.join`, `str(int)`, `int(str)`), with their round trips |
| `tree.dfy` (`Tree`) | element nodes, `get` with a default, appending a child |
| `sections.dfy` (`Sections`) | `is_true`; the configuration and the set of opening tags; `get_level`; `make_section`; the `hasN` counter update of `begin_section` |
| `assembler.dfy` (`Assembler`) | `SectionsAssember`: its state, `begin_section`, `end_section`, `add_element`, `assemble`, and the whole pass run by `SectionsTreeprocessor.run` |
| `assembly_proofs.dfy` (`AssemblyProofs`) | what a pass guarantees, listed below |
| `scenarios.dfy` (`Scenarios`) | the docstring's "Two sections" and "Three sections" examples, computed end to end |

Properties of a pass (`AssemblyProofs`):
- every original child is kept, once and in document order;
- the children before the first opening heading stay in place;
- every section starts with the heading that opened it, and has the
  attributes `make_section` gives it;
- every section holds the later siblings up to the next heading of its level
  or a shallower one, and nests only sections of a deeper level;
- each `hasN` counter names the number of child sections;
- the ValueError of line 148 arises only from a `has…` class word that is
  not a number.

The source mutates the tree in place. Here the pass is a pure function from
the input node to the rewritten node.
- **Open sections.** They are a list of frames, outermost first. The last
  frame is `current_section` with `current_level`; the ones before it are
  `section_stack`.
- **Attaching on close.** The source attaches a new section to its parent
  when the section is created. New sections and moved elements always go
  last, so the open sections are the rightmost chain of the tree.
  Attaching each section when it is closed therefore builds the same tree,
  and the model does that.
- **Node ids.** Nodes carry an id only so that the proofs can tell original
  nodes (id below `base`) from sections the pass created (ids from `base`
  on).

The model follows the code as written. Points a reader may not expect:
- **Opening tags.** They are `h1` to `h<max_level>` inclusive.
- **Levels.** A level is the value of the tag's last character (line 120).
  With `max_level` of 10 or more, `h10` opens a section of level 0
  (`Sections.TwoDigitHeadingLevel`).
- **Counter.** The `hasN` counter is always maintained (lines 141-154).
- **Counter ValueError.** A malformed counter word raises ValueError in the
  middle of the pass (line 148). This is an error outcome, not a
  precondition.
- **Empty class.** With an empty class, the first bump gives `" has1"`,
  with a leading space, because `''.split(' ')` is `['']`
  (`Sections.BumpEmptyClass`).

## Model

| member | source | states |
|---|---|---|
| Sections.IsTrue | markdown/extensions/sections.py:89-96 | the six false words give false and the six true words give true, in any ASCII letter case; anything else gives `default` |
| Sections.IsTrueIgnoresCase | markdown/extensions/sections.py:92-95 | letter case never matters, and no word is both true and false, so the order of the two tests does not matter |
| Sections.IsTrueExamples | markdown/extensions/sections.py:92-96 | `YES`, `On` and `1` are true; `False`, `N` and `off` are false; `maybe` and the empty string give the default |
| Sections.Headers | markdown/extensions/sections.py:109 | there are `max_level` opening tags, and none when `max_level` is below 1 |
| Sections.OpeningIff | markdown/extensions/sections.py:109 | `h<k>` (k ≥ 1) opens a section if and only if k ≤ `max_level` |
| Sections.OpeningShape | markdown/extensions/sections.py:109 | every opening tag is `h<k>` for some k from 1 to `max_level` |
| Sections.OpeningTagDigit | markdown/extensions/sections.py:109-120 | every opening tag ends with a decimal digit, so `int(header.tag[-1])` never fails on one |
| Sections.Level | markdown/extensions/sections.py:119-120 | the level of an opening tag is a single digit |
| Sections.LevelOfHeading | markdown/extensions/sections.py:119-120 | the level of `h<k>` is the last decimal digit of k |
| Sections.LevelInRange | markdown/extensions/sections.py:119-120 | with `max_level` at most 9, the level of an opening tag is its heading number, between 1 and `max_level` |
| Sections.TwoDigitHeadingLevel | markdown/extensions/sections.py:120 | with `max_level` 10, `h10` opens a section and its level is 0 |
| Sections.SectionClass | markdown/extensions/sections.py:127-133 | a new section's class has no whitespace at either end |
| Sections.SectionClassWords | markdown/extensions/sections.py:127-133 | with a non-empty prefix that has no space and does not start with whitespace, and a heading class with no whitespace at either end, the words of a new section's class are the level class, then the heading's own class words |
| Sections.SectionClassNoPrefix | markdown/extensions/sections.py:128-133 | with an empty prefix, the class is the heading's stripped class; with no heading class either, it is empty |
| Sections.MakeSection | markdown/extensions/sections.py:122-134 | the new section is an empty `section`; it has an `id` exactly when the heading has a non-empty id, and that id is `section_` + the heading's id; its class is the joined, stripped class; it has no other attribute |
| Sections.MakeSectionWithId | markdown/extensions/sections.py:8-15 | an `h1` with id `some-header` gives a section with id `section_some-header` and class `level1` |
| Sections.MakeSectionWithClass | markdown/extensions/sections.py:26-32 | an `h1` with id `the_header` and class `title` gives id `section_the_header` and class `level1 title` |
| Sections.BumpHasFails | markdown/extensions/sections.py:144-148 | the counter update fails, with the ValueError of `int()`, if and only if some `has…` word of the class is not a number |
| Sections.BumpHasSpec | markdown/extensions/sections.py:144-154 | on a well-formed class the update succeeds; it raises the count read from the class by exactly one, keeps the class well formed, and keeps every other word in order |
| Sections.BumpHasReplaces | markdown/extensions/sections.py:149-153 | a class whose only counter word is `hasN` (none for 0) ends with `has(N+1)` as its only counter word; the stale `hasN` is removed, not kept |
| Sections.BumpFirstChild | markdown/extensions/sections.py:46 | the first child section turns `level1` into `level1 has1` |
| Sections.BumpSecondChild | markdown/extensions/sections.py:65 | the second child section turns `level1 has1` into `level1 has2` |
| Sections.BumpEmptyClass | markdown/extensions/sections.py:144-154 | an empty class becomes `" has1"`, because splitting the empty string gives one empty word |
| Sections.BumpMalformed | markdown/extensions/sections.py:147-148 | the class `level1 hasx` makes the update fail |
| Strings.JoinSplit | markdown/extensions/sections.py:144-154 | joining the pieces of `split(' ')` with single spaces gives back the original class string |
| Strings.SplitJoin | markdown/extensions/sections.py:144-154 | splitting a join of space-free words gives back the words |
| Strings.StripSpaces | markdown/extensions/sections.py:133 | `strip()` keeps an infix of the string and removes only whitespace, from both ends |
| Strings.ParseIntToString | markdown/extensions/sections.py:148-153 | `int(str(n)) == n` for every integer, so the counter written at line 153 reads back at line 148 |
| Strings.IntToStringInjective | markdown/extensions/sections.py:109 | distinct numbers give distinct heading tags |
| Assembler.EndSection | markdown/extensions/sections.py:159-165 | with nothing open, nothing changes; otherwise the previous section and level become current (level 0 when none is left), and the closed section becomes the last child of its parent |
| Assembler.CloseFrom | markdown/extensions/sections.py:138-140 | the loop leaves no open section at or above the level; with levels increasing inward, exactly the open sections of that level or deeper are closed, and the others are kept with their levels |
| Assembler.BumpCurrent | markdown/extensions/sections.py:141-154 | the update succeeds exactly when the current section's class (`has0` when absent) can be bumped; only that class attribute changes |
| Assembler.BeginSection | markdown/extensions/sections.py:136-157 | after a successful call, the current section is the one `make_section` builds for the heading, the current level is the heading's level, and the id counter moved on by one |
| Assembler.AddElement | markdown/extensions/sections.py:167-170 | the element becomes the last child of the current section, and nothing else changes |
| Assembler.Nested | markdown/extensions/sections.py:181-182 | the recursive `assemble(child)`, run through the same loop on the shared state with a fresh local `section`, changes neither the assembler state nor a child that has no opening heading below it |
| Assembler.Run | markdown/extensions/sections.py:175-182 | while no section has been opened, a run over children that open none leaves them where they are, in order, and leaves the state as it was |
| Assembler.Step | markdown/extensions/sections.py:175-182 | after one child, `section is not None` holds if and only if it held before or the child opens a section; before that, the child stays where it is |
| Assembler.Assemble | markdown/extensions/sections.py:190-195 | the pass keeps the tag, id and attributes of the node it rewrites |
| AssemblyProofs.BeginSectionStack | markdown/extensions/sections.py:136-157 | on a stack of increasing levels, `begin_section` closes exactly the open sections of the heading's level or deeper, keeps the shallower ones with their levels, and leaves the levels strictly increasing with the heading's level on top |
| AssemblyProofs.EndSectionKeeps | markdown/extensions/sections.py:159-165 | closing a section keeps every original node exactly once and in order, and keeps every section well formed |
| AssemblyProofs.CloseFromKeeps | markdown/extensions/sections.py:138-140 | so does the closing loop |
| AssemblyProofs.AddKeeps | markdown/extensions/sections.py:179-180 | moving a sibling into the current section keeps the same invariant, with the sibling appended to the processed children |
| AssemblyProofs.StepKeeps | markdown/extensions/sections.py:175-182 | one iteration of the loop keeps the whole loop invariant |
| AssemblyProofs.RunKeeps | markdown/extensions/sections.py:175-182 | a successful loop over any list of children keeps the invariant |
| AssemblyProofs.AssembleSpec | markdown/extensions/sections.py:172-182 | after a successful pass, flattening the output gives back the input children in order; the children before the first opening heading are unchanged; every later child is a well-formed section (starting with its heading, with its `make_section` attributes, and with no other opening heading among its original children); sections never precede an original node and never precede a deeper section in any child list; with no opening heading, nothing changes |
| AssemblyProofs.AssembleOk | markdown/extensions/sections.py:144-148 | the pass raises no ValueError when every opening heading's section class has only numeric counter words |
| AssemblyProofs.AssembleCounts | markdown/extensions/sections.py:141-154 | when no section class carries a counter word of its own (neither from the heading's class nor from a `class_prefix` beginning with `has`), the pass succeeds and every section's `hasN` word names exactly its number of child sections (none for 0), at every depth |
| AssemblyProofs.CountedReadsBack | markdown/extensions/sections.py:144-148 | the counter of such a section reads back, through the loop of lines 146-148, as its number of child sections |
| Scenarios.FirstClass | markdown/extensions/sections.py:14 | `# Some Header` opens a section of class `level1` |
| Scenarios.TwoSections | markdown/extensions/sections.py:35-50 | `h1`, `p`, `h2`, `p` become one `level1 has1` section holding the `h1`, the `p` and a `level2` section with the `h2` and the second `p`, with the ids of the example |
| Scenarios.ThreeSections | markdown/extensions/sections.py:52-71 | with a second `h2` and `p`, the first `level2` section is closed, the second follows it inside the level-1 section, and the outer class becomes `level1 has2` |

## Left out

- Nested opening headings (line 182). The recursive `assemble(child)` shares the assembler's state with the caller. An opening heading below a direct child would therefore close and reopen sections of the enclosing level. The model accepts only trees whose opening headings are all direct children of the node being assembled (`Assembler.NoOpeningBelow`). The recursion is modelled by `Assembler.Nested`, which runs the model's own loop (`Assembler.Run`) over the child's children; on such a subtree it leaves the state and the child unchanged.
- Non-ASCII string behaviour. `lower`, `strip` and `int` are modelled on ASCII only. Here whitespace is only the characters 9-13 and 32 (`Strings.IsSpace`). Python 2's unicode `strip()` and `int()` also treat U+001C-U+001F (the information separators) as whitespace, and `strip()` also removes other Unicode whitespace such as U+00A0. So in the source a class word `has\x1c5` reads as 5 (the separator is stripped by `int()`), while the model reports a ValueError for it; a heading class ending in U+001F keeps that character here but loses it in the source. `int()` also accepts non-ASCII decimal digits, so `has٣` reads as 3, but here it is a ValueError. `int()` also skips whitespace after the sign (`int('-\t3') == -3`); here that is rejected too.
- Exceptions. The ValueError of line 148 is the `ValueError` case of `Assembler.Outcome`, not an exception. A failed pass yields no tree. The source's partially rewritten tree at the moment of the exception is not modelled.
- `is_true`'s `str(s)` coercion (line 91). Non-string arguments are not modelled: `Sections.IsTrue` takes a string. The extension itself never calls `is_true`.
- Attaching sections. A section is attached to its parent when it is closed, not when it is created (lines 134 and 156). Each one is attached by the end of the pass (`Assembler.CloseAll`), and the resulting tree is the same. The model has no intermediate tree, so it says nothing about one.
- Configuration resolution (lines 106-117). It reads `md.Meta` first, then the extension's configuration, then applies `int(max_level)`. `Sections.Config` holds the already resolved `class_prefix` and `max_level`. A `max_level` that is not a number fails before the pass and is not modelled.
- `allheaders` (line 108). It is computed but never used.
- The `if parent:` guard of `add_element` (line 168). It always holds: the parent is the node being assembled, and the child being moved is still one of its children.
- `parent.remove(element)` (line 169). The node is not removed from a mutable list. A sibling that is moved never appears among the node's children in the output.
- Extension registration (lines 185-221), `makeExtension`, the doctest runner (lines 223-225) and the serializer that prints the docstring's HTML. These are plumbing. The examples are stated on trees, not on HTML text.
- The doctest "Single section with id attribute" (lines 17-23). It depends on the `attr_list` syntax `{@id=…}`, which is not part of this model. Its effect on the section is that of `Sections.MakeSectionWithClass` without the class.
- Element text and tails. They are opaque to the pass and are not modelled.
- Sections.SectionClassWords: a heading class with whitespace at either end is outside the lemma. Line 133's `strip()` then drops that whitespace, so the words are not those of the raw class: class `"a "` gives `level1 a`, not the words `level1`, `a` and an empty word. `Sections.SectionClass` still states that the stripped class has no whitespace at either end.
- Assembler.Assemble: its own contract states only that the rewritten node keeps its tag, id and attributes. What the pass does to the children is stated by `AssemblyProofs.AssembleSpec` and `AssemblyProofs.AssembleCounts`.
- AssemblyProofs.AssembleCounts: it assumes no section class has a `has…` word before its first child section arrives. That excludes a heading class such as `has5`, which would make the section's counter start from 5. It also excludes a `class_prefix` that begins with `has`: then the level word is itself read as a counter. With prefix `has`, a level-1 section of class `has1` becomes `has2` at its first child section, and the level word is gone. With prefix `hasty`, the word `hasty1` becomes `ty1`, and the first child section raises ValueError. In both cases the count would not name the child sections.
