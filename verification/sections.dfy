/** The building blocks of the sections extension: the boolean coercion
    `is_true`, the set of section-opening heading tags, the heading level,
    the attributes of a new `<section>`, and the `hasN` child counter kept in
    a section's class attribute. */
module Sections {
  import opened Strings
  import opened Tree

  /* ------------------------------------------------------------- is_true */

  const FalseWords: seq<string> := ["0", "f", "false", "off", "no", "n"]
  const TrueWords: seq<string> := ["1", "t", "true", "on", "yes", "y"]

  /** `is_true(s, default)`: the six false words and the six true words are
      recognised in any letter case; everything else gives `default`. */
  function IsTrue(s: string, default: bool): (r: bool)
    ensures Lower(s) in FalseWords ==> !r
    ensures Lower(s) in TrueWords ==> r
    ensures Lower(s) !in FalseWords && Lower(s) !in TrueWords ==> r == default
  {
    var l := Lower(s);
    if l in FalseWords then false
    else if l in TrueWords then true
    else default
  }

  /** No word is both true and false, so the order of the two tests does not
      matter, and letter case never does. */
  lemma IsTrueIgnoresCase(s: string, default: bool)
    ensures IsTrue(s, default) == IsTrue(Lower(s), default)
    ensures Lower(s) in TrueWords ==> Lower(s) !in FalseWords
  {
    LowerIdempotent(s);
  }

  lemma IsTrueExamples(default: bool)
    ensures IsTrue("YES", default) && IsTrue("On", default) && IsTrue("1", default)
    ensures !IsTrue("False", default) && !IsTrue("N", default) && !IsTrue("off", default)
    ensures IsTrue("maybe", default) == default && IsTrue("", default) == default
  {
    assert Lower("YES") == "yes";
    assert Lower("On") == "on";
    assert Lower("1") == "1";
    assert Lower("False") == "false";
    assert Lower("N") == "n";
    assert Lower("off") == "off";
    assert Lower("maybe") == "maybe";
    assert Lower("") == "";
  }

  /* ------------------------------------------------------ configuration */

  /** The two options, already resolved from the document's metadata or the
      extension's defaults (`class_prefix` "level", `max_level` 3). */
  datatype Config = Config(classPrefix: string, maxLevel: int)

  const DefaultConfig := Config("level", 3)

  /** The opening tags: `h1`, `h2`, ..., up to `h<max_level>`; none when
      `max_level` is below 1. */
  function Headers(maxLevel: int): (hs: seq<string>)
    ensures |hs| == if maxLevel < 1 then 0 else maxLevel
  {
    if maxLevel < 1 then [] else seq(maxLevel, k requires 0 <= k < maxLevel => "h" + IntToString(k + 1))
  }

  /** `tag in self.headers`. */
  predicate IsOpening(cfg: Config, tag: string) {
    tag in Headers(cfg.maxLevel)
  }

  /** The tag `h<k>` opens a section exactly when 1 <= k <= max_level. */
  lemma {:induction false} OpeningIff(cfg: Config, k: int)
    requires k >= 1
    ensures IsOpening(cfg, "h" + IntToString(k)) <==> k <= cfg.maxLevel
  {
    var hs := Headers(cfg.maxLevel);
    if k <= cfg.maxLevel {
      assert hs[k - 1] == "h" + IntToString(k);
    } else if IsOpening(cfg, "h" + IntToString(k)) {
      var j :| 0 <= j < |hs| && hs[j] == "h" + IntToString(k);
      assert IntToString(j + 1) == ("h" + IntToString(k))[1..];
      IntToStringInjective(j + 1, k);
    }
  }

  /** Every opening tag is `h<k>` for some k in 1..max_level. */
  lemma OpeningShape(cfg: Config, tag: string) returns (k: int)
    requires IsOpening(cfg, tag)
    ensures 1 <= k <= cfg.maxLevel && tag == "h" + IntToString(k)
  {
    var hs := Headers(cfg.maxLevel);
    var j :| 0 <= j < |hs| && hs[j] == tag;
    k := j + 1;
  }

  lemma LastDigit(n: nat)
    ensures var s := NatToString(n); s[|s| - 1] == DigitChar(n % 10)
  {
  }

  /** The last character of an opening tag is a digit. */
  lemma OpeningTagDigit(cfg: Config, tag: string)
    requires IsOpening(cfg, tag)
    ensures |tag| > 0 && IsDigit(tag[|tag| - 1])
  {
    var k := OpeningShape(cfg, tag);
    LastDigit(k);
  }

  /** `get_level`: the value of the LAST character of the tag. */
  function Level(cfg: Config, tag: string): (l: nat)
    requires IsOpening(cfg, tag)
    ensures l < 10
  {
    OpeningTagDigit(cfg, tag);
    DigitVal(tag[|tag| - 1])
  }

  /** The level of `h<k>` is the last decimal digit of k. */
  lemma LevelOfHeading(cfg: Config, k: int)
    requires 1 <= k <= cfg.maxLevel
    ensures IsOpening(cfg, "h" + IntToString(k))
    ensures Level(cfg, "h" + IntToString(k)) == k % 10
  {
    OpeningIff(cfg, k);
    LastDigit(k);
  }

  /** With at most nine levels (Markdown only has h1..h6) the level of an
      opening tag is its heading number, between 1 and `max_level`. */
  lemma LevelInRange(cfg: Config, tag: string)
    requires IsOpening(cfg, tag) && cfg.maxLevel <= 9
    ensures 1 <= Level(cfg, tag) <= cfg.maxLevel
    ensures tag == "h" + IntToString(Level(cfg, tag))
  {
    var k := OpeningShape(cfg, tag);
    LevelOfHeading(cfg, k);
  }

  /** With `max_level` 10 or more, `h10` opens a section of level 0, because
      only the last digit of the tag is read. */
  lemma TwoDigitHeadingLevel()
    ensures IsOpening(Config("level", 10), "h10")
    ensures Level(Config("level", 10), "h10") == 0
  {
    assert "h10" == "h" + IntToString(10);
    LevelOfHeading(Config("level", 10), 10);
  }

  /* -------------------------------------------------------- make_section */

  /** `header.get('id')`, with a missing id read as the empty string (both are
      false in `if header_id`). */
  function HeaderId(header: Node): string {
    Get(header.attrs, "id", "")
  }

  function HeaderClass(header: Node): string {
    Get(header.attrs, "class", "")
  }

  /** The class a new section starts with: the level class
      `class_prefix + level` (absent when the prefix is empty), then the
      heading's own class (absent when empty), then `strip()`. */
  function SectionClass(cfg: Config, header: Node): (c: string)
    requires IsOpening(cfg, header.tag)
    ensures |c| > 0 ==> !IsSpace(c[0]) && !IsSpace(c[|c| - 1])
  {
    Strip(JoinedClass(LevelClass(cfg, header.tag), HeaderClass(header)))
  }

  /** `class_prefix + level`, or nothing when the prefix is empty. */
  function LevelClass(cfg: Config, tag: string): string
    requires IsOpening(cfg, tag)
  {
    if cfg.classPrefix != "" then cfg.classPrefix + IntToString(Level(cfg, tag)) else ""
  }

  /** The level class followed by the heading's class, when it has one. */
  function JoinedClass(levelClass: string, headerClass: string): string {
    if headerClass != "" then levelClass + " " + headerClass else levelClass
  }

  /** A space-free prefix and a heading class with no surrounding whitespace:
      the section's class words are the level class, then the heading's own
      class words. */
  lemma SectionClassWords(cfg: Config, header: Node)
    requires IsOpening(cfg, header.tag)
    requires cfg.classPrefix != "" && !IsSpace(cfg.classPrefix[0])
    requires forall k :: 0 <= k < |cfg.classPrefix| ==> cfg.classPrefix[k] != ' '
    requires var hc := HeaderClass(header); |hc| > 0 ==> !IsSpace(hc[0]) && !IsSpace(hc[|hc| - 1])
    ensures var levelClass := cfg.classPrefix + IntToString(Level(cfg, header.tag));
            Split(SectionClass(cfg, header)) == [levelClass] + (if HeaderClass(header) == "" then [] else Split(HeaderClass(header)))
  {
    LevelClassWord(cfg, header.tag);
    JoinedWords(LevelClass(cfg, header.tag), HeaderClass(header));
  }

  /** With a space-free prefix the level class is one word. */
  lemma LevelClassWord(cfg: Config, tag: string)
    requires IsOpening(cfg, tag)
    requires cfg.classPrefix != "" && !IsSpace(cfg.classPrefix[0])
    requires forall k :: 0 <= k < |cfg.classPrefix| ==> cfg.classPrefix[k] != ' '
    ensures var lc := LevelClass(cfg, tag);
            && lc == cfg.classPrefix + IntToString(Level(cfg, tag))
            && |lc| > 0 && ' ' !in lc && !IsSpace(lc[0]) && !IsSpace(lc[|lc| - 1])
  {
    var p := cfg.classPrefix;
    var d := IntToString(Level(cfg, tag));
    var lc := p + d;
    forall k | 0 <= k < |lc| ensures lc[k] != ' ' {
      if k >= |p| {
        assert lc[k] == d[k - |p|];
      }
    }
    assert lc[|lc| - 1] == d[|d| - 1];
  }

  /** The words of a level class joined with a heading class. */
  lemma JoinedWords(lc: string, hc: string)
    requires |lc| > 0 && ' ' !in lc && !IsSpace(lc[0]) && !IsSpace(lc[|lc| - 1])
    requires |hc| > 0 ==> !IsSpace(hc[0]) && !IsSpace(hc[|hc| - 1])
    ensures Split(Strip(JoinedClass(lc, hc))) == [lc] + (if hc == "" then [] else Split(hc))
  {
    if hc == "" {
      StripUnchanged(lc);
      SplitWord(lc, "");
      assert lc + "" == lc;
    } else {
      JoinedWordsTwo(lc, hc);
    }
  }

  lemma JoinedWordsTwo(lc: string, hc: string)
    requires |lc| > 0 && ' ' !in lc && !IsSpace(lc[0])
    requires |hc| > 0 && !IsSpace(hc[0]) && !IsSpace(hc[|hc| - 1])
    ensures Split(Strip(lc + " " + hc)) == [lc] + Split(hc)
  {
    var tail := " " + hc;
    var joined := lc + tail;
    StripJoined(lc, hc, tail, joined);
    SplitJoined(lc, hc, tail);
  }

  /** `lc + " " + hc` has no whitespace at its ends. */
  lemma StripJoined(lc: string, hc: string, tail: string, joined: string)
    requires |lc| > 0 && !IsSpace(lc[0])
    requires |hc| > 0 && !IsSpace(hc[|hc| - 1])
    requires tail == " " + hc && joined == lc + tail
    ensures lc + " " + hc == joined && Strip(joined) == joined
  {
    assert joined[0] == lc[0];
    assert joined[|joined| - 1] == hc[|hc| - 1];
    StripUnchanged(joined);
  }

  /** A space-free word, a space, then `hc` splits into the word and the
      pieces of `hc`. */
  lemma SplitJoined(lc: string, hc: string, tail: string)
    requires ' ' !in lc && tail == " " + hc
    ensures Split(lc + tail) == [lc] + Split(hc)
  {
    SplitSpaceFirst(hc);
    var st := Split(tail);
    assert st[0] == "" && st[1..] == Split(hc);
    SplitWord(lc, tail);
    assert lc + st[0] == lc;
  }

  /** With an empty prefix the section's class is the heading's stripped class;
      with neither, it is empty. */
  lemma SectionClassNoPrefix(cfg: Config, header: Node)
    requires IsOpening(cfg, header.tag) && cfg.classPrefix == ""
    ensures SectionClass(cfg, header) == Strip(HeaderClass(header))
    ensures HeaderClass(header) == "" ==> SectionClass(cfg, header) == ""
  {
  }

  /** `make_section`: a new, empty `section` element whose `id` is
      `section_` + the heading's id when the heading has a non-empty id (and
      absent otherwise), and whose class is `SectionClass`. The heading itself
      is not touched (it is not part of the result). */
  function MakeSection(cfg: Config, header: Node, id: nat): (s: Node)
    requires IsOpening(cfg, header.tag)
    ensures s.id == id && s.tag == "section" && s.children == []
    ensures "class" in s.attrs && s.attrs["class"] == SectionClass(cfg, header)
    ensures "id" in s.attrs <==> HeaderId(header) != ""
    ensures "id" in s.attrs ==> s.attrs["id"] == "section_" + HeaderId(header)
    ensures s.attrs.Keys <= {"id", "class"}
  {
    var idAttr: map<string, string> := if HeaderId(header) != "" then map["id" := "section_" + HeaderId(header)] else map[];
    Node(id, "section", idAttr["class" := SectionClass(cfg, header)], [])
  }

  lemma HeadingOne()
    ensures IsOpening(DefaultConfig, "h1") && Level(DefaultConfig, "h1") == 1
  {
    assert IntToString(1) == "1";
    assert "h" + IntToString(1) == "h1";
    LevelOfHeading(DefaultConfig, 1);
  }

  /** The section class from its two parts, once they are known. */
  lemma SectionClassOf(cfg: Config, h: Node, levelClass: string, joined: string)
    requires IsOpening(cfg, h.tag) && cfg.classPrefix != ""
    requires levelClass == cfg.classPrefix + IntToString(Level(cfg, h.tag))
    requires joined == if HeaderClass(h) != "" then levelClass + " " + HeaderClass(h) else levelClass
    ensures SectionClass(cfg, h) == Strip(joined)
  {
  }

  lemma LevelOneWord()
    ensures IsOpening(DefaultConfig, "h1") && DefaultConfig.classPrefix + IntToString(Level(DefaultConfig, "h1")) == "level1"
  {
    HeadingOne();
    assert IntToString(1) == "1";
  }

  lemma NoSpaceAtEnds(t: string)
    requires t == "level1" || t == "level1 title" || t == "level2"
    ensures Strip(t) == t
  {
    assert |t| > 0 && !IsSpace(t[0]) && !IsSpace(t[|t| - 1]);
    StripUnchanged(t);
  }

  /** The class of a section for a plain `h1` heading. */
  lemma LevelOnePlain(h: Node)
    requires h.tag == "h1" && HeaderClass(h) == ""
    ensures IsOpening(DefaultConfig, h.tag) && SectionClass(DefaultConfig, h) == "level1"
  {
    var l := "level1";
    LevelOneWord();
    SectionClassOf(DefaultConfig, h, l, l);
    NoSpaceAtEnds(l);
  }

  /** The class of a section for an `h1` heading of class `title`. */
  lemma LevelOneTitle(h: Node, hc: string)
    requires h.tag == "h1" && HeaderClass(h) == hc && hc == "title"
    ensures IsOpening(DefaultConfig, h.tag) && SectionClass(DefaultConfig, h) == "level1 title"
  {
    var l := "level1";
    var t := l + " " + hc;
    assert t == "level1 title";
    LevelOneWord();
    SectionClassOf(DefaultConfig, h, l, t);
    NoSpaceAtEnds(t);
  }

  lemma LevelOneClass(h: Node)
    requires h.tag == "h1"
    ensures IsOpening(DefaultConfig, h.tag)
    ensures HeaderClass(h) == "" ==> SectionClass(DefaultConfig, h) == "level1"
    ensures HeaderClass(h) == "title" ==> SectionClass(DefaultConfig, h) == "level1 title"
  {
    LevelOneWord();
    if HeaderClass(h) == "" {
      LevelOnePlain(h);
    } else if HeaderClass(h) == "title" {
      LevelOneTitle(h, HeaderClass(h));
    }
  }

  /** The attributes of the section made for a heading with a non-empty id. */
  lemma SectionAttrs(cfg: Config, h: Node, id: nat, hid: string, cls: string)
    requires IsOpening(cfg, h.tag) && HeaderId(h) == hid && hid != "" && SectionClass(cfg, h) == cls
    ensures MakeSection(cfg, h, id).attrs == map["id" := "section_" + hid, "class" := cls]
  {
    var m := MakeSection(cfg, h, id).attrs;
    assert m.Keys == {"id", "class"};
  }

  lemma SomeHeaderId()
    ensures "section_" + "some-header" == "section_some-header"
  {
  }

  lemma TheHeaderId()
    ensures "section_" + "the_header" == "section_the_header"
  {
  }

  /** Doctest at line 14: an `h1` with id `some-header` gets a section with
      id `section_some-header` and class `level1`. */
  lemma MakeSectionWithId()
    ensures IsOpening(DefaultConfig, "h1")
    ensures MakeSection(DefaultConfig, Node(1, "h1", map["id" := "some-header"], []), 7).attrs
            == map["id" := "section_some-header", "class" := "level1"]
  {
    var h := Node(1, "h1", map["id" := "some-header"], []);
    var hid := "some-header";
    assert "class" !in h.attrs && "id" in h.attrs && h.attrs["id"] == hid;
    LevelOnePlain(h);
    SectionAttrs(DefaultConfig, h, 7, hid, "level1");
    SomeHeaderId();
  }

  /** Doctest at line 32: a heading class is appended to the level class. */
  lemma MakeSectionWithClass()
    ensures IsOpening(DefaultConfig, "h1")
    ensures MakeSection(DefaultConfig, Node(1, "h1", map["id" := "the_header", "class" := "title"], []), 7).attrs
            == map["id" := "section_the_header", "class" := "level1 title"]
  {
    var h := Node(1, "h1", map["id" := "the_header", "class" := "title"], []);
    var hid := "the_header";
    assert "class" in h.attrs && h.attrs["class"] == "title";
    assert "id" in h.attrs && h.attrs["id"] == hid;
    LevelOneTitle(h, "title");
    SectionAttrs(DefaultConfig, h, 7, hid, "level1 title");
    TheHeaderId();
  }

  /* -------------------------------------------------------------- hasN */

  /** A class word the counter loop reads: `css_class.startswith('has')`. */
  predicate IsHasWord(t: string) {
    |t| >= 3 && t[0] == 'h' && t[1] == 'a' && t[2] == 's'
  }

  /** `t.replace('has', '')`: every non-overlapping occurrence, left to right. */
  function DropHas(t: string): string
  {
    if IsHasWord(t) then DropHas(t[3..])
    else if |t| == 0 then ""
    else [t[0]] + DropHas(t[1..])
  }

  lemma {:induction false} DropHasNoH(t: string)
    requires forall k :: 0 <= k < |t| ==> t[k] != 'h'
    ensures DropHas(t) == t
  {
    if |t| > 0 {
      assert t[0] != 'h';
      DropHasNoH(t[1..]);
    }
  }

  /** `int(css_class.replace('has', ''))`; None stands for ValueError. */
  function WordCount(t: string): Option<int> {
    ParseInt(DropHas(t))
  }

  /** The counter word for n: `'has' + str(n)`. */
  function HasWord(n: int): string {
    "has" + IntToString(n)
  }

  /** A counter word is read back as its number. */
  lemma HasWordSpec(n: int)
    ensures IsHasWord(HasWord(n)) && ' ' !in HasWord(n)
    ensures WordCount(HasWord(n)) == Some(n)
  {
    var x := IntToString(n);
    IntToStringChars(n);
    var t := HasWord(n);
    assert t[0] == 'h' && t[1] == 'a' && t[2] == 's';
    assert t[3..] == x;
    assert DropHas(t) == DropHas(x);
    assert forall k :: 0 <= k < |x| ==> x[k] != 'h' && x[k] != ' ';
    assert ' ' !in t by {
      forall k | 0 <= k < |t| ensures t[k] != ' ' {
        if k >= 3 {
          assert t[k] == x[k - 3];
        }
      }
    }
    DropHasNoH(x);
    ParseIntToString(n);
  }

  /** The loop at lines 145-148: the last `has*` word decides the count. */
  function ScanCount(words: seq<string>, count: int): Option<int>
  {
    if |words| == 0 then Some(count)
    else if IsHasWord(words[0]) then
      match WordCount(words[0])
      case None => None
      case Some(c) => ScanCount(words[1..], c)
    else ScanCount(words[1..], count)
  }

  /** The class words that are counters, and the ones that are not. */
  function HasWords(words: seq<string>): (r: seq<string>)
    ensures forall k :: 0 <= k < |r| ==> IsHasWord(r[k])
  {
    if |words| == 0 then []
    else (if IsHasWord(words[0]) then [words[0]] else []) + HasWords(words[1..])
  }

  function OtherWords(words: seq<string>): (r: seq<string>)
    ensures forall k :: 0 <= k < |r| ==> !IsHasWord(r[k])
  {
    if |words| == 0 then []
    else (if IsHasWord(words[0]) then [] else [words[0]]) + OtherWords(words[1..])
  }

  /** Every counter word of the class is a number `int()` accepts, so the
      counter loop does not raise. */
  predicate ValidClass(cls: string) {
    ValidWords(Split(cls))
  }

  predicate ValidWord(t: string) {
    IsHasWord(t) ==> WordCount(t).Some?
  }

  predicate ValidWords(words: seq<string>)
    decreases |words|
  {
    |words| == 0 || (ValidWord(words[0]) && ValidWords(words[1..]))
  }

  /** Every word of a valid list is valid, and conversely. */
  lemma {:induction false} ValidWordsAll(words: seq<string>)
    ensures ValidWords(words) <==> forall k :: 0 <= k < |words| ==> ValidWord(words[k])
    decreases |words|
  {
    if |words| > 0 {
      ValidWordsAll(words[1..]);
      assert forall k :: 0 < k < |words| ==> words[k] == words[1..][k - 1];
    }
  }

  /** The count the counter loop reads from a class value. */
  function HasCount(cls: string): Option<int> {
    ScanCount(Split(cls), 0)
  }

  /** `if x in words: words.remove(x)`: drops the first occurrence of `x`,
      if there is one. */
  function RemoveFirst(words: seq<string>, x: string): (r: seq<string>)
    ensures |r| <= |words|
  {
    if |words| == 0 then []
    else if words[0] == x then words[1..]
    else [words[0]] + RemoveFirst(words[1..], x)
  }

  /** Removing a word adds none. */
  lemma {:induction false} RemoveFirstFrom(words: seq<string>, x: string)
    ensures forall k :: 0 <= k < |RemoveFirst(words, x)| ==> RemoveFirst(words, x)[k] in words
  {
    if |words| > 0 && words[0] != x {
      RemoveFirstFrom(words[1..], x);
      var r := RemoveFirst(words, x);
      forall k | 0 <= k < |r|
        ensures r[k] in words
      {
        if k > 0 {
          assert r[k] == RemoveFirst(words[1..], x)[k - 1];
        }
      }
    }
  }

  /** Without an occurrence of `x`, nothing is removed. */
  lemma {:induction false} RemoveAbsent(words: seq<string>, x: string)
    requires x !in words
    ensures RemoveFirst(words, x) == words
  {
    if |words| > 0 {
      assert words[0] in words;
      RemoveAbsent(words[1..], x);
      assert words == [words[0]] + words[1..];
    }
  }

  /** The class words after a bump from `count`: `hasN` removed if present,
      `has(N+1)` appended. */
  function BumpWords(words: seq<string>, count: int): (r: seq<string>)
    ensures |r| >= 1 && r[|r| - 1] == HasWord(count + 1)
  {
    RemoveFirst(words, HasWord(count)) + [HasWord(count + 1)]
  }

  /** Every bumped word but the new counter was a word before. */
  lemma BumpWordsFrom(words: seq<string>, count: int)
    ensures var r := BumpWords(words, count);
            forall k :: 0 <= k < |r| - 1 ==> r[k] in words
  {
    RemoveFirstFrom(words, HasWord(count));
  }

  /** What the counter loop reads when a section has no class attribute. */
  const NoClass: string := "has0"

  /** Lines 144-154: read the count N from the class (`has0` when there is no
      class attribute), drop the word `hasN` if present, append `has(N+1)`.
      None stands for the ValueError `int()` raises on a malformed counter. */
  function BumpHas(cls: string): Option<string>
  {
    match ScanCount(Split(cls), 0)
    case None => None
    case Some(count) => Some(Join(BumpWords(Split(cls), count)))
  }

  /** The bump fails, with the ValueError of line 148, exactly when some
      counter word of the class is not a number. */
  lemma BumpHasFails(cls: string)
    ensures BumpHas(cls).None? <==> !ValidClass(cls)
  {
    ScanCountValid(Split(cls), 0);
  }

  lemma {:induction false} ScanCountOnlyHas(words: seq<string>, count: int)
    ensures ScanCount(words, count) == ScanCount(HasWords(words), count)
  {
    if |words| > 0 {
      var w := words[0];
      var hw := HasWords(words[1..]);
      if IsHasWord(w) {
        var t := [w] + hw;
        assert HasWords(words) == t;
        assert t[0] == w && t[1..] == hw;
        if WordCount(w).Some? {
          ScanCountOnlyHas(words[1..], WordCount(w).value);
        }
      } else {
        assert HasWords(words) == hw;
        ScanCountOnlyHas(words[1..], count);
      }
    }
  }

  /** The counter loop gets through the words exactly when every counter
      word among them is a number. */
  lemma {:induction false} ScanCountValid(words: seq<string>, count: int)
    ensures ScanCount(words, count).Some? <==> ValidWords(words)
  {
    if |words| > 0 {
      if IsHasWord(words[0]) {
        if WordCount(words[0]).Some? {
          ScanCountValid(words[1..], WordCount(words[0]).value);
        }
      } else {
        ScanCountValid(words[1..], count);
      }
    }
  }

  /** A counter word appended last decides the count. */
  lemma {:induction false} ScanCountLast(words: seq<string>, count: int, n: int)
    requires ScanCount(words, count).Some?
    ensures ScanCount(words + [HasWord(n)], count) == Some(n)
  {
    HasWordSpec(n);
    if |words| == 0 {
      assert words + [HasWord(n)] == [HasWord(n)];
    } else {
      assert (words + [HasWord(n)])[1..] == words[1..] + [HasWord(n)];
      if IsHasWord(words[0]) {
        ScanCountLast(words[1..], WordCount(words[0]).value, n);
      } else {
        ScanCountLast(words[1..], count, n);
      }
    }
  }

  lemma {:induction false} HasWordsAppend(a: seq<string>, b: seq<string>)
    ensures HasWords(a + b) == HasWords(a) + HasWords(b)
    ensures OtherWords(a + b) == OtherWords(a) + OtherWords(b)
  {
    if |a| > 0 {
      assert (a + b)[1..] == a[1..] + b;
      HasWordsAppend(a[1..], b);
    } else {
      assert a + b == b;
    }
  }

  /** A counter word is among the words exactly when it is among the
      counter words. */
  lemma {:induction false} HasWordsMember(words: seq<string>, x: string)
    requires IsHasWord(x)
    ensures x in words <==> x in HasWords(words)
  {
    if |words| > 0 {
      HasWordsMember(words[1..], x);
      assert words == [words[0]] + words[1..];
    }
  }

  /** Removing a counter word leaves the other words as they were. */
  lemma {:induction false} RemoveHasWord(words: seq<string>, x: string)
    requires x in words && IsHasWord(x)
    ensures x in HasWords(words)
    ensures HasWords(RemoveFirst(words, x)) == RemoveFirst(HasWords(words), x)
    ensures OtherWords(RemoveFirst(words, x)) == OtherWords(words)
  {
    HasWordsMember(words, x);
    var w := words[0];
    if w == x {
      assert HasWords(words) == [x] + HasWords(words[1..]);
    } else {
      RemoveHasWord(words[1..], x);
      var rest := RemoveFirst(words[1..], x);
      assert RemoveFirst(words, x) == [w] + rest;
      assert HasWords([w] + rest) == HasWords([w]) + HasWords(rest) by {
        HasWordsAppend([w], rest);
      }
      assert OtherWords([w] + rest) == OtherWords([w]) + OtherWords(rest) by {
        HasWordsAppend([w], rest);
      }
      assert words == [w] + words[1..];
      HasWordsAppend([w], words[1..]);
      if IsHasWord(w) {
        var hs := [w] + HasWords(words[1..]);
        assert hs[0] != x && hs[1..] == HasWords(words[1..]);
        assert RemoveFirst(hs, x) == [w] + RemoveFirst(HasWords(words[1..]), x);
      } else {
        assert HasWords([w]) == [];
        assert HasWords(words) == HasWords(words[1..]);
        assert HasWords(RemoveFirst(words, x)) == HasWords(rest);
      }
    }
  }

  /** The words of a bumped class are the bumped words. */
  lemma SplitBumped(cls: string, count: int)
    requires ScanCount(Split(cls), 0) == Some(count)
    ensures BumpHas(cls) == Some(Join(BumpWords(Split(cls), count)))
    ensures Split(BumpHas(cls).value) == BumpWords(Split(cls), count)
  {
    var out := BumpWords(Split(cls), count);
    HasWordSpec(count + 1);
    SplitNoSpace(cls);
    BumpWordsFrom(Split(cls), count);
    forall k | 0 <= k < |out|
      ensures ' ' !in out[k]
    {
      if k < |out| - 1 {
        var j :| 0 <= j < |Split(cls)| && Split(cls)[j] == out[k];
      }
    }
    SplitJoin(out);
  }

  lemma BumpWordsValid(words: seq<string>, count: int)
    requires ValidWords(words)
    ensures ValidWords(BumpWords(words, count))
  {
    HasWordSpec(count + 1);
    var out := BumpWords(words, count);
    ValidWordsAll(words);
    BumpWordsFrom(words, count);
    forall k | 0 <= k < |out|
      ensures ValidWord(out[k])
    {
      if k < |out| - 1 {
        var j :| 0 <= j < |words| && words[j] == out[k];
      }
    }
    ValidWordsAll(out);
  }

  /** The bumped words read as one more than the count they were bumped
      from. */
  lemma BumpWordsCount(words: seq<string>, count: int)
    requires ValidWords(words)
    ensures ScanCount(BumpWords(words, count), 0) == Some(count + 1)
  {
    var out := BumpWords(words, count);
    BumpWordsValid(words, count);
    var kept := out[..|out| - 1];
    assert out == kept + [HasWord(count + 1)];
    assert ValidWords(kept) by {
      ValidWordsAll(out);
      forall k | 0 <= k < |kept|
        ensures ValidWord(kept[k])
      {
        assert kept[k] == out[k];
      }
      ValidWordsAll(kept);
    }
    ScanCountValid(kept, 0);
    ScanCountLast(kept, 0, count + 1);
  }

  /** Bumping keeps every non-counter word, in order. */
  lemma BumpWordsOthers(words: seq<string>, count: int)
    ensures OtherWords(BumpWords(words, count)) == OtherWords(words)
  {
    HasWordSpec(count);
    HasWordSpec(count + 1);
    var kept := RemoveFirst(words, HasWord(count));
    HasWordsAppend(kept, [HasWord(count + 1)]);
    assert OtherWords([HasWord(count + 1)]) == [];
    if HasWord(count) in words {
      RemoveHasWord(words, HasWord(count));
    } else {
      RemoveAbsent(words, HasWord(count));
    }
  }

  /** Bumping a well-formed class succeeds, keeps it well formed, raises the
      count by exactly one and keeps every non-counter word in order. */
  lemma BumpHasSpec(cls: string) returns (count: int, c: string)
    requires ValidClass(cls)
    ensures HasCount(cls) == Some(count) && BumpHas(cls) == Some(c)
    ensures ValidClass(c) && HasCount(c) == Some(count + 1)
    ensures OtherWords(Split(c)) == OtherWords(Split(cls))
  {
    ScanCountValid(Split(cls), 0);
    count := ScanCount(Split(cls), 0).value;
    SplitBumped(cls, count);
    c := BumpHas(cls).value;
    BumpedClass(cls, count, c);
  }

  /** A class whose words are the bumped words of a valid class is valid,
      counts one more, and has the same other words. */
  lemma BumpedClass(cls: string, count: int, c: string)
    requires ValidClass(cls) && HasCount(cls) == Some(count)
    requires Split(c) == BumpWords(Split(cls), count)
    ensures ValidClass(c) && HasCount(c) == Some(count + 1)
    ensures OtherWords(Split(c)) == OtherWords(Split(cls))
  {
    BumpWordsValid(Split(cls), count);
    BumpedCount(cls, c, count);
    BumpWordsOthers(Split(cls), count);
  }

  lemma BumpedCount(cls: string, c: string, count: int)
    requires ValidClass(cls) && Split(c) == BumpWords(Split(cls), count)
    ensures HasCount(c) == Some(count + 1)
  {
    var out := BumpWords(Split(cls), count);
    BumpWordsCount(Split(cls), count);
    HasCountOf(c, out, count + 1);
  }

  lemma HasCountOf(c: string, words: seq<string>, n: int)
    requires Split(c) == words && ScanCount(words, 0) == Some(n)
    ensures HasCount(c) == Some(n)
  {
  }

  /** The counter words of a section that has n child sections: none for 0,
      exactly `hasN` otherwise. */
  function CounterWords(n: nat): seq<string> {
    if n == 0 then [] else [HasWord(n)]
  }

  /** A class whose only counter word is the canonical `hasN` reads as N. */
  lemma CanonicalCount(cls: string, n: nat)
    requires HasWords(Split(cls)) == CounterWords(n)
    ensures HasCount(cls) == Some(n)
  {
    HasWordSpec(n);
    ScanCountOnlyHas(Split(cls), 0);
    if n > 0 {
      assert ScanCount([HasWord(n)], 0) == ScanCount([], n);
    }
  }

  /** The old counter word is replaced, not duplicated: a class carrying the
      canonical counter for n carries the one for n + 1 afterwards. */
  lemma BumpHasReplaces(cls: string, n: nat)
    requires HasWords(Split(cls)) == CounterWords(n)
    ensures BumpHas(cls).Some?
    ensures HasWords(Split(BumpHas(cls).value)) == CounterWords(n + 1)
    ensures OtherWords(Split(BumpHas(cls).value)) == OtherWords(Split(cls))
  {
    var words := Split(cls);
    CanonicalCount(cls, n);
    HasWordSpec(n);
    HasWordSpec(n + 1);
    SplitBumped(cls, n);
    var out := BumpWords(words, n);
    var kept := out[..|out| - 1];
    assert out == kept + [HasWord(n + 1)];
    HasWordsAppend(kept, [HasWord(n + 1)]);
    assert HasWords([HasWord(n + 1)]) == [HasWord(n + 1)];
    HasWordsMember(words, HasWord(n));
    if HasWord(n) in words {
      RemoveHasWord(words, HasWord(n));
      assert n > 0;
      assert HasWords(kept) == [];
    } else {
      RemoveAbsent(words, HasWord(n));
      assert n == 0;
      assert HasWords(kept) == [];
    }
  }

  /** Doctest at line 46: the first child section turns `level1` into
      `level1 has1`. */
  lemma BumpFirstChild()
    ensures BumpHas("level1") == Some("level1 has1")
  {
    var cls := "level1";
    assert Split(cls) == [cls] by {
      SplitJoin([cls]);
    }
    assert ScanCount([cls], 0) == Some(0) by {
      assert !IsHasWord(cls);
    }
    assert HasWord(1) == "has1" by {
      assert IntToString(1) == "1";
    }
    assert BumpWords([cls], 0) == [cls, "has1"] by {
      assert HasWord(0) == "has0" by {
        assert IntToString(0) == "0";
      }
      assert HasWord(0) !in [cls];
    }
    assert Join([cls, "has1"]) == "level1 has1";
    SplitBumped(cls, 0);
  }

  lemma SplitLevelHas()
    ensures Split("level1 has1") == ["level1", "has1"]
  {
    var words: seq<string> := ["level1", "has1"];
    SplitJoin(words);
    assert Join(words) == "level1 has1";
  }

  lemma ScanLevelHas()
    ensures ScanCount(["level1", "has1"], 0) == Some(1)
  {
    var words: seq<string> := ["level1", "has1"];
    assert HasWord(1) == "has1" by {
      assert IntToString(1) == "1";
    }
    HasWordSpec(1);
    assert !IsHasWord(words[0]);
    assert ScanCount(words, 0) == ScanCount(words[1..], 0);
    assert words[1..] == [HasWord(1)];
    assert ScanCount([HasWord(1)], 0) == ScanCount([], 1);
  }

  lemma BumpLevelHasWords()
    ensures BumpWords(["level1", "has1"], 1) == ["level1", "has2"]
  {
    var words: seq<string> := ["level1", "has1"];
    assert HasWord(1) == "has1" by {
      assert IntToString(1) == "1";
    }
    assert HasWord(2) == "has2" by {
      assert IntToString(2) == "2";
    }
    assert RemoveFirst(words, "has1") == ["level1"];
  }

  /** A bump computed step by step: the words, the count read from them, the
      bumped words and their join. */
  lemma BumpOf(cls: string, words: seq<string>, count: int, out: seq<string>, r: string)
    requires Split(cls) == words && ScanCount(words, 0) == Some(count)
    requires BumpWords(words, count) == out && Join(out) == r
    ensures BumpHas(cls) == Some(r)
  {
  }

  lemma JoinLevelHas()
    ensures Join(["level1", "has2"]) == "level1 has2"
  {
    var out: seq<string> := ["level1", "has2"];
    assert out[1..] == ["has2"];
  }

  /** Doctest at line 65: the second child section turns `level1 has1` into
      `level1 has2`. */
  lemma BumpSecondChild()
    ensures BumpHas("level1 has1") == Some("level1 has2")
  {
    SplitLevelHas();
    ScanLevelHas();
    BumpLevelHasWords();
    JoinLevelHas();
    BumpOf("level1 has1", ["level1", "has1"], 1, ["level1", "has2"], "level1 has2");
  }

  /** With an empty class (no prefix, no heading class) the bumped class
      starts with a space, because `''.split(' ')` is `['']`. */
  lemma BumpEmptyClass()
    ensures BumpHas("") == Some(" has1")
  {
    var cls := "";
    assert Split(cls) == [""];
    assert HasWord(0) == "has0" && HasWord(1) == "has1" by {
      assert IntToString(0) == "0" && IntToString(1) == "1";
    }
    assert ScanCount([""], 0) == Some(0);
    SplitBumped(cls, 0);
    assert HasWord(0) != "";
    assert BumpWords([""], 0) == ["", "has1"];
    assert Join(["", "has1"]) == " has1";
  }

  /** A counter word that is not a number makes the bump fail: `hasx` is
      the ValueError of line 148. */
  lemma BumpMalformed()
    ensures BumpHas("level1 hasx").None?
  {
    var words: seq<string> := ["level1", "hasx"];
    SplitJoin(words);
    assert Join(words) == "level1 hasx";
    MalformedWord();
    assert words[1..] == ["hasx"];
    assert !ValidWords(words[1..]);
    BumpHasFails("level1 hasx");
  }

  lemma MalformedWord()
    ensures !ValidWord("hasx")
  {
    DropHasX();
    NotANumber();
  }

  lemma DropHasX()
    ensures IsHasWord("hasx") && DropHas("hasx") == "x"
  {
    var t := "hasx";
    assert t[3..] == "x";
    var x := "x";
    assert !IsHasWord(x) && x[1..] == "";
    assert DropHas(x) == [x[0]] + DropHas("");
  }

  lemma NotANumber()
    ensures ParseInt("x") == None
  {
    var x := "x";
    ParseIntRejects(x);
  }
}
