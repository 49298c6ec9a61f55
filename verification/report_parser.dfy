/** The report parser of the front page (`src/app/page.tsx`): the model's answer
    is a loose XML document of `<step1>` … `<step5>` sections, read with a lazy,
    case-insensitive tag extractor; the mounts of step 4 are collected with a
    global, case-sensitive scan; `**bold**` runs are split out of each line;
    and a loading indicator advances by a bounded recurrence. */
module ReportParser {
  import opened Common
  import opened Text

  // ---------------------------------------------------------------------------
  // Slices and matches
  // ---------------------------------------------------------------------------

  /** A match inside a slice is a match of the whole text, shifted. */
  lemma SliceMatch(s: string, p: string, lo: nat, hi: nat, q: int, ignoreCase: bool)
    requires lo <= hi <= |s|
    ensures MatchAt(s[lo..hi], p, q, ignoreCase) <==>
            (0 <= q && lo + q + |p| <= hi && MatchAt(s, p, lo + q, ignoreCase))
  {
  }

  lemma SliceOfSlice(s: string, lo: nat, hi: nat, a: nat, b: nat)
    requires lo <= hi <= |s| && a <= b <= hi - lo
    ensures s[lo..hi][a..b] == s[lo + a..lo + b]
  {
    assert forall k :: 0 <= k < b - a ==> s[lo..hi][a..b][k] == s[lo + a + k];
  }

  /** A slice holds no match of `p` when the text holds none lying inside it. */
  lemma SliceLacks(s: string, p: string, lo: nat, hi: nat, ignoreCase: bool)
    requires lo <= hi <= |s|
    requires forall k :: lo <= k && k + |p| <= hi ==> !MatchAt(s, p, k, ignoreCase)
    ensures forall q :: !MatchAt(s[lo..hi], p, q, ignoreCase)
  {
    forall q ensures !MatchAt(s[lo..hi], p, q, ignoreCase) {
      SliceMatch(s, p, lo, hi, q, ignoreCase);
    }
  }

  /** Where the trimmed text lies in the untrimmed one. */
  lemma TrimOffset(s: string) returns (a: nat)
    ensures a + |Trim(s)| <= |s| && Trim(s) == s[a..a + |Trim(s)|]
  {
    a := LeadingSpace(s);
  }

  /** Trimming adds no match. */
  lemma TrimLacks(s: string, p: string, ignoreCase: bool)
    requires forall q :: !MatchAt(s, p, q, ignoreCase)
    ensures forall q :: !MatchAt(Trim(s), p, q, ignoreCase)
  {
    var a := TrimOffset(s);
    SliceLacks(s, p, a, a + |Trim(s)|, ignoreCase);
  }

  // ---------------------------------------------------------------------------
  // extractTagContent: new RegExp(`<${tag}>([\s\S]*?)</${tag}>`, 'i')
  // ---------------------------------------------------------------------------

  /** The tag is taken literally: every tag name the page passes is made of
      word characters, which the pattern built from it matches as they are. */
  function Open(tag: string): string { "<" + tag + ">" }
  function Close(tag: string): string { "</" + tag + ">" }

  /** The regular expression matches from the opener at `i` to the closer at
      `j`: the lazy group stops at the first closer after the opener. */
  ghost predicate LazyMatch(text: string, tag: string, i: nat, j: nat) {
    MatchAt(text, Open(tag), i, true) && i + |Open(tag)| <= j &&
    MatchAt(text, Close(tag), j, true) &&
    forall k :: i + |Open(tag)| <= k < j ==> !MatchAt(text, Close(tag), k, true)
  }

  /** No opener is followed by a closer: the regular expression fails. */
  ghost predicate NoMatch(text: string, tag: string) {
    forall i, j :: MatchAt(text, Open(tag), i, true) && i + |Open(tag)| <= j ==>
      !MatchAt(text, Close(tag), j, true)
  }

  /** Where the match lies: the first opener and the first closer after it. */
  function TagBounds(text: string, tag: string): (r: Option<(nat, nat)>)
    ensures r.Some? ==> LazyMatch(text, tag, r.value.0, r.value.1)
    ensures r.Some? ==> forall k :: 0 <= k < r.value.0 ==> !MatchAt(text, Open(tag), k, true)
    ensures r.None? <==> NoMatch(text, tag)
  {
    match Find(text, Open(tag), 0, true)
    case None => None
    case Some(i) =>
      match Find(text, Close(tag), i + |Open(tag)|, true)
      case None => None
      case Some(j) => Some((i, j))
  }

  /** The bounds are the regular expression's match: every match starts at or
      after them, and one from the same opener ends at the same closer. */
  lemma TagBoundsLeftmost(text: string, tag: string, i: nat, j: nat)
    requires LazyMatch(text, tag, i, j)
    ensures TagBounds(text, tag).Some?
    ensures TagBounds(text, tag).value.0 <= i
    ensures TagBounds(text, tag).value.0 == i ==> TagBounds(text, tag).value.1 == j
  {
  }

  /** The captured group `([\s\S]*?)`: the text between the opener and the
      first closer after it. */
  function Group(text: string, tag: string): (r: Option<string>)
    ensures r.Some? <==> TagBounds(text, tag).Some?
    ensures r.Some? ==> (TagBounds(text, tag).Some? &&
      r.value == text[TagBounds(text, tag).value.0 + |Open(tag)|..TagBounds(text, tag).value.1])
  {
    match TagBounds(text, tag)
    case None => None
    case Some((i, j)) => Some(text[i + |Open(tag)|..j])
  }

  /** `extractTagContent(text, tag)`: null exactly when the regular expression
      fails, otherwise the trimmed group. */
  function ExtractTagContent(text: string, tag: string): (r: Option<string>)
    ensures r.None? <==> NoMatch(text, tag)
    ensures r.Some? ==> (Group(text, tag).Some? && r.value == Trim(Group(text, tag).value))
  {
    match Group(text, tag)
    case None => None
    case Some(g) => Some(Trim(g))
  }

  /** The lazy group stops at the first closer, so the extracted text never
      holds the closing tag, in any letter case. */
  lemma ExtractLacksCloser(text: string, tag: string)
    requires ExtractTagContent(text, tag).Some?
    ensures forall k :: !MatchAt(ExtractTagContent(text, tag).value, Close(tag), k, true)
  {
    var (i, j) := TagBounds(text, tag).value;
    SliceLacks(text, Close(tag), i + |Open(tag)|, j, true);
    TrimLacks(Group(text, tag).value, Close(tag), true);
  }

  /** A section of the answer. */
  datatype Step = Step(title: Option<string>, enTitle: Option<string>, content: string)

  /** `extractStep(text, tag)`: null for an absent or blank section, otherwise
      its content with the `<title>` and `<en_title>` read from it. */
  function ExtractStep(text: string, tag: string): (r: Option<Step>)
    ensures r.None? <==> !Truthy(ExtractTagContent(text, tag))
    ensures r.Some? ==> Some(r.value.content) == ExtractTagContent(text, tag) && |r.value.content| > 0
    ensures r.Some? ==> r.value.title == ExtractTagContent(r.value.content, "title")
    ensures r.Some? ==> r.value.enTitle == ExtractTagContent(r.value.content, "en_title")
  {
    match ExtractTagContent(text, tag)
    case None => None
    case Some(content) =>
      if |content| == 0 then None
      else Some(Step(ExtractTagContent(content, "title"), ExtractTagContent(content, "en_title"), content))
  }

  /** `isFinished`: the fifth section is there and carries a non-empty advice. */
  predicate IsFinished(result: string) {
    var step5 := ExtractStep(result, "step5");
    step5.Some? && Truthy(ExtractTagContent(step5.value.content, "advice"))
  }

  /** Where an extracted section lies in the text it came from. */
  lemma ContentOffset(text: string, tag: string) returns (off: nat)
    requires ExtractTagContent(text, tag).Some?
    ensures off + |ExtractTagContent(text, tag).value| <= |text|
    ensures ExtractTagContent(text, tag).value == text[off..off + |ExtractTagContent(text, tag).value|]
  {
    var lo := TagBounds(text, tag).value.0 + |Open(tag)|;
    var e := TagBounds(text, tag).value.1;
    var g := Group(text, tag).value;
    assert g == text[lo..e];
    var content := ExtractTagContent(text, tag).value;
    assert content == Trim(g);
    off := TrimmedSliceOffset(text, lo, e);
    assert content == text[off..off + |content|];
  }

  /** Where the trimmed slice `text[lo..e]` lies in `text`. */
  lemma TrimmedSliceOffset(text: string, lo: nat, e: nat) returns (off: nat)
    requires lo <= e <= |text|
    ensures off + |Trim(text[lo..e])| <= |text|
    ensures Trim(text[lo..e]) == text[off..off + |Trim(text[lo..e])|]
  {
    var content := Trim(text[lo..e]);
    var a := TrimOffset(text[lo..e]);
    SliceOfSlice(text, lo, e, a, a + |content|);
    off := lo + a;
  }

  /** A tag found inside an extracted section is found, opener before
      closer, in the text the section came from. */
  lemma NestedTag(text: string, outer: string, inner: string)
    requires ExtractTagContent(text, outer).Some?
    requires ExtractTagContent(ExtractTagContent(text, outer).value, inner).Some?
    ensures exists i, j :: MatchAt(text, Open(inner), i, true) && i < j &&
                           MatchAt(text, Close(inner), j, true)
  {
    var content := ExtractTagContent(text, outer).value;
    var off := ContentOffset(text, outer);
    var i, j := BoundsMatch(content, inner);
    SliceMatch(text, Open(inner), off, off + |content|, i, true);
    SliceMatch(text, Close(inner), off, off + |content|, j, true);
    assert off + i < off + j;
  }

  /** A found opener and closer, opener first. */
  lemma BoundsMatch(text: string, tag: string) returns (i: nat, j: nat)
    requires ExtractTagContent(text, tag).Some?
    ensures MatchAt(text, Open(tag), i, true) && MatchAt(text, Close(tag), j, true) && i < j
  {
    assert TagBounds(text, tag).Some?;
    i, j := TagBounds(text, tag).value.0, TagBounds(text, tag).value.1;
    assert LazyMatch(text, tag, i, j);
  }

  /** A finished answer holds a `<step5>` section and, inside the original
      text, an `<advice>` opener followed by its closer. */
  lemma FinishedHasAdvice(result: string)
    requires IsFinished(result)
    ensures TagBounds(result, "step5").Some?
    ensures exists i, j :: MatchAt(result, Open("advice"), i, true) && i < j &&
                           MatchAt(result, Close("advice"), j, true)
  {
    NestedTag(result, "step5", "advice");
  }

  // ---------------------------------------------------------------------------
  // The mounts of step 4: /<mount>([\s\S]*?)<\/mount>/g, exact case
  // ---------------------------------------------------------------------------

  const MountOpen: string := "<mount>"
  const MountClose: string := "</mount>"

  /** `gaps[0] <mount> contents[0] </mount> gaps[1] …`, one gap per content. */
  function Woven(gaps: seq<string>, contents: seq<string>): string
    requires |gaps| == |contents|
  {
    if |gaps| == 0 then ""
    else
      Woven(gaps[..|gaps| - 1], contents[..|contents| - 1]) +
      gaps[|gaps| - 1] + MountOpen + contents[|contents| - 1] + MountClose
  }

  ghost predicate Lacks(s: string, p: string) {
    forall k :: !OccursAt(s, p, k)
  }

  /** No `<mount>` in `s` is followed by a `</mount>`: the scan stops here. */
  ghost predicate NoMountIn(s: string) {
    forall i, j :: OccursAt(s, MountOpen, i) && i + |MountOpen| <= j ==> !OccursAt(s, MountClose, j)
  }

  lemma WovenAppend(gaps: seq<string>, contents: seq<string>, gap: string, content: string)
    requires |gaps| == |contents|
    ensures Woven(gaps + [gap], contents + [content]) ==
            Woven(gaps, contents) + gap + MountOpen + content + MountClose
  {
    assert (gaps + [gap])[..|gaps|] == gaps;
    assert (contents + [content])[..|contents|] == contents;
  }

  /** The text up to the end of a mount found at `i` … `j`. */
  lemma MountPrefix(s: string, last: nat, i: nat, j: nat)
    requires last <= i && i + |MountOpen| <= j && j + |MountClose| <= |s|
    requires s[i..i + |MountOpen|] == MountOpen && s[j..j + |MountClose|] == MountClose
    ensures s[..j + |MountClose|] ==
            s[..last] + s[last..i] + MountOpen + s[i + |MountOpen|..j] + MountClose
  {
  }

  /** The rest of the text after the scan stops holds no complete mount. */
  lemma LastGap(s: string, last: nat)
    requires last <= |s|
    requires forall i, j :: last <= i && OccursAt(s, MountOpen, i) && i + |MountOpen| <= j ==>
               !OccursAt(s, MountClose, j)
    ensures NoMountIn(s[last..])
  {
    forall i, j | OccursAt(s[last..], MountOpen, i) && i + |MountOpen| <= j
      ensures !OccursAt(s[last..], MountClose, j)
    {
      assert s[last..] == s[last..|s|];
      SliceMatch(s, MountOpen, last, |s|, i, false);
      SliceMatch(s, MountClose, last, |s|, j, false);
      assert OccursAt(s, MountOpen, last + i);
      assert !OccursAt(s, MountClose, last + j);
    }
  }

  lemma ExtendLacks(xs: seq<string>, x: string, p: string)
    requires forall k :: 0 <= k < |xs| ==> Lacks(xs[k], p)
    requires Lacks(x, p)
    ensures forall k :: 0 <= k < |xs + [x]| ==> Lacks((xs + [x])[k], p)
  {
  }

  lemma ExtendCards(contents: seq<string>, cards: seq<Mount>, content: string)
    requires |cards| == |contents| && forall k :: 0 <= k < |contents| ==> cards[k] == MountOf(contents[k])
    ensures var cs, ms := contents + [content], cards + [MountOf(content)];
      |ms| == |cs| && forall k :: 0 <= k < |cs| ==> ms[k] == MountOf(cs[k])
  {
    var cs, ms := contents + [content], cards + [MountOf(content)];
    forall k | 0 <= k < |cs| ensures ms[k] == MountOf(cs[k]) {
      if k < |contents| {
        assert cs[k] == contents[k] && ms[k] == cards[k];
      }
    }
  }

  /** One round of the scan: the mount found at `i` … `j` extends the weave
      by its gap and its content. */
  lemma MountStep(s: string, last: nat, i: nat, j: nat, gaps: seq<string>, contents: seq<string>)
    requires last <= i && i + |MountOpen| <= j && j + |MountClose| <= |s|
    requires OccursAt(s, MountOpen, i) && OccursAt(s, MountClose, j)
    requires forall k :: last <= k < i ==> !MatchAt(s, MountOpen, k, false)
    requires forall k :: i + |MountOpen| <= k < j ==> !MatchAt(s, MountClose, k, false)
    requires |gaps| == |contents| && s[..last] == Woven(gaps, contents)
    ensures s[..j + |MountClose|] ==
            Woven(gaps + [s[last..i]], contents + [s[i + |MountOpen|..j]])
    ensures Lacks(s[last..i], MountOpen)
    ensures Lacks(s[i + |MountOpen|..j], MountClose)
  {
    SliceLacks(s, MountOpen, last, i, false);
    SliceLacks(s, MountClose, i + |MountOpen|, j, false);
    OccursAtIsSlice(s, MountOpen, i);
    OccursAtIsSlice(s, MountClose, j);
    MountPrefix(s, last, i, j);
    WovenAppend(gaps, contents, s[last..i], s[i + |MountOpen|..j]);
  }

  /** The end of the scan: the rest of the text is the last gap. */
  lemma MountEnd(s: string, last: nat, gaps: seq<string>, contents: seq<string>)
    requires last <= |s| && |gaps| == |contents| && s[..last] == Woven(gaps, contents)
    requires forall i, j :: last <= i && OccursAt(s, MountOpen, i) && i + |MountOpen| <= j ==>
               !OccursAt(s, MountClose, j)
    ensures s == Woven((gaps + [s[last..]])[..|contents|], contents) + (gaps + [s[last..]])[|contents|]
    ensures NoMountIn(s[last..])
  {
    LastGap(s, last);
    assert (gaps + [s[last..]])[..|contents|] == gaps;
    assert s == s[..last] + s[last..];
  }

  /** The `while ((match = mountRegex.exec(…)) !== null)` loop: the contents
      of the mounts in document order, with the text around them. The text
      is cut into gap, `<mount>`, content, `</mount>`, …, last gap; no gap
      before a mount holds an opener, no content holds a closer, and the
      last gap holds no complete mount. */
  method Mounts(s: string) returns (gaps: seq<string>, contents: seq<string>, cards: seq<Mount>)
    ensures |gaps| == |contents| + 1
    ensures |cards| == |contents| && forall k :: 0 <= k < |contents| ==> cards[k] == MountOf(contents[k])
    ensures s == Woven(gaps[..|contents|], contents) + gaps[|contents|]
    ensures forall k :: 0 <= k < |contents| ==> Lacks(gaps[k], MountOpen)
    ensures forall k :: 0 <= k < |contents| ==> Lacks(contents[k], MountClose)
    ensures NoMountIn(gaps[|contents|])
  {
    gaps, contents, cards := [], [], [];
    var last := 0;
    while true
      invariant last <= |s|
      invariant |gaps| == |contents|
      invariant |cards| == |contents| && forall k :: 0 <= k < |contents| ==> cards[k] == MountOf(contents[k])
      invariant s[..last] == Woven(gaps, contents)
      invariant forall k :: 0 <= k < |contents| ==> Lacks(gaps[k], MountOpen)
      invariant forall k :: 0 <= k < |contents| ==> Lacks(contents[k], MountClose)
      decreases |s| - last
    {
      var opener := Find(s, MountOpen, last, false);
      var closer := if opener.Some? then Find(s, MountClose, opener.value + |MountOpen|, false) else None;
      if closer.None? {
        MountEnd(s, last, gaps, contents);
        gaps := gaps + [s[last..]];
        return;
      }
      var i, j := opener.value, closer.value;
      var gap, content := s[last..i], s[i + |MountOpen|..j];
      MountStep(s, last, i, j, gaps, contents);
      ExtendLacks(gaps, gap, MountOpen);
      ExtendLacks(contents, content, MountClose);
      ExtendCards(contents, cards, content);
      gaps, contents, cards := gaps + [gap], contents + [content], cards + [MountOf(content)];
      last := j + |MountClose|;
    }
  }

  /** `Step4Card`'s list of mounts: none when the `<mounts>` section is
      missing or empty, otherwise one card per mount of that section (the
      section is also returned cut into gaps and mount contents). */
  method Step4Mounts(content: string) returns (gaps: seq<string>, contents: seq<string>, cards: seq<Mount>)
    ensures !Truthy(ExtractTagContent(content, "mounts")) ==> cards == [] && contents == []
    ensures |cards| == |contents| && forall k :: 0 <= k < |contents| ==> cards[k] == MountOf(contents[k])
    ensures Truthy(ExtractTagContent(content, "mounts")) ==>
      && |gaps| == |contents| + 1
      && ExtractTagContent(content, "mounts").value == Woven(gaps[..|contents|], contents) + gaps[|contents|]
      && (forall k :: 0 <= k < |contents| ==> Lacks(gaps[k], MountOpen) && Lacks(contents[k], MountClose))
      && NoMountIn(gaps[|contents|])
  {
    var section := ExtractTagContent(content, "mounts");
    gaps, contents, cards := [], [], [];
    if Truthy(section) {
      gaps, contents, cards := Mounts(section.value);
    }
  }

  /** One mount card. */
  datatype Mount = Mount(name: Option<string>, status: Option<string>, desc: Option<string>)

  /** One card: the name, status and description of a mount's content. */
  function MountOf(content: string): Mount {
    Mount(ExtractTagContent(content, "name"), ExtractTagContent(content, "status"),
          ExtractTagContent(content, "desc"))
  }

  /** A card field is null exactly when its tag is missing, and a present
      field never holds its own closing tag. */
  lemma MountFields(content: string)
    ensures MountOf(content).name.None? <==> NoMatch(content, "name")
    ensures MountOf(content).status.None? <==> NoMatch(content, "status")
    ensures MountOf(content).desc.None? <==> NoMatch(content, "desc")
    ensures MountOf(content).name.Some? ==>
      forall k :: !MatchAt(MountOf(content).name.value, Close("name"), k, true)
  {
    if MountOf(content).name.Some? {
      ExtractLacksCloser(content, "name");
    }
  }

  // ---------------------------------------------------------------------------
  // FormattedText: text.split('\n'), then line.split(/(\*\*.*?\*\*)/)
  // ---------------------------------------------------------------------------

  /** The line terminators that `.` does not match. */
  predicate IsLineTerminator(c: char) {
    c == '\n' || c == '\r' || c == '\U{2028}' || c == '\U{2029}'
  }

  predicate StarsAt(s: string, k: int) {
    0 <= k && k + 2 <= |s| && s[k] == '*' && s[k + 1] == '*'
  }

  /** The end of the lazy `.*?\*\*` tried from `from`: just past the first
      `**` reached before any line terminator. */
  function BoldEnd(s: string, from: nat): (r: Option<nat>)
    ensures r.Some? ==> from + 2 <= r.value <= |s| && StarsAt(s, r.value - 2)
    ensures r.Some? ==> forall k :: from <= k < r.value - 2 ==> !IsLineTerminator(s[k]) && !StarsAt(s, k)
    ensures r.None? ==> forall k :: from <= k && StarsAt(s, k) ==>
      exists t :: from <= t < k && IsLineTerminator(s[t])
    decreases |s| - from
  {
    if from + 2 > |s| then None
    else if StarsAt(s, from) then Some(from + 2)
    else if IsLineTerminator(s[from]) then None
    else BoldEnd(s, from + 1)
  }

  /** The end of a match of `\*\*.*?\*\*` starting exactly at `q`. */
  function BoldAt(s: string, q: nat): (r: Option<nat>)
    ensures r.Some? ==> StarsAt(s, q) && q + 4 <= r.value <= |s| && StarsAt(s, r.value - 2)
  {
    if StarsAt(s, q) then BoldEnd(s, q + 2) else None
  }

  /** A captured part: `**`, then characters other than line terminators,
      then `**`. */
  predicate IsBoldPart(t: string) {
    |t| >= 4 && t[..2] == "**" && t[|t| - 2..] == "**" &&
    forall k :: 2 <= k < |t| - 2 ==> !IsLineTerminator(t[k])
  }

  function Concat(parts: seq<string>): string {
    if |parts| == 0 then "" else parts[0] + Concat(parts[1..])
  }

  /** The splitting loop of `RegExp.prototype[Symbol.split]` from the last
      cut `p`, trying a match at every `q`: text and captured parts
      alternate, starting and ending with text. */
  function SplitFrom(s: string, p: nat, q: nat): (r: seq<string>)
    requires p <= q <= |s|
    ensures |r| % 2 == 1
    ensures Concat(r) == s[p..]
    ensures forall k :: 0 <= k < |r| && k % 2 == 1 ==> IsBoldPart(r[k])
    decreases |s| - q
  {
    if q == |s| then [s[p..]]
    else
      match BoldAt(s, q)
      case None => SplitFrom(s, p, q + 1)
      case Some(e) =>
        var rest := SplitFrom(s, e, e);
        BoldStep(s, p, q, e, rest);
        [s[p..q], s[q..e]] + rest
  }

  /** One captured run: the text before it and the run itself are put in
      front of the split of the rest. */
  lemma BoldStep(s: string, p: nat, q: nat, e: nat, rest: seq<string>)
    requires p <= q && BoldAt(s, q) == Some(e)
    requires |rest| % 2 == 1 && Concat(rest) == s[e..]
    requires forall k :: 0 <= k < |rest| && k % 2 == 1 ==> IsBoldPart(rest[k])
    ensures var r := [s[p..q], s[q..e]] + rest;
      && |r| % 2 == 1 && Concat(r) == s[p..]
      && forall k :: 0 <= k < |r| && k % 2 == 1 ==> IsBoldPart(r[k])
  {
    var bold := s[q..e];
    var r := [s[p..q], bold] + rest;
    assert forall k :: 2 <= k < |bold| - 2 ==> bold[k] == s[q + k];
    assert IsBoldPart(bold);
    assert r[1..] == [bold] + rest;
    assert ([bold] + rest)[1..] == rest;
    assert s[p..] == s[p..q] + (bold + s[e..]);
    forall k | 0 <= k < |r| && k % 2 == 1 ensures IsBoldPart(r[k]) {
      if k >= 2 { assert r[k] == rest[k - 2]; }
    }
  }

  /** `line.split(/(\*\*.*?\*\*)/)`: the empty line splits into itself. */
  function SplitBold(line: string): (parts: seq<string>)
    ensures |parts| % 2 == 1
    ensures Concat(parts) == line
    ensures forall k :: 0 <= k < |parts| && k % 2 == 1 ==> IsBoldPart(parts[k])
  {
    SplitFrom(line, 0, 0)
  }

  /** What a part renders as: `<strong>` text or plain text. */
  datatype Piece = Plain(text: string) | Strong(text: string)

  /** `s.slice(start, end)` for `0 <= start` and `end <= |s|`. */
  function Slice(s: string, start: nat, end: int): (r: string)
    requires start <= |s| && end <= |s|
    ensures end <= start ==> r == []
    ensures start < end ==> r == s[start..end]
  {
    if end <= start then [] else s[start..end]
  }

  /** A part starting and ending with `**` is bold, shown as `part.slice(2, -2)`. */
  function Render(part: string): (r: Piece)
    ensures r.Strong? <==> StartsWith(part, "**") && EndsWith(part, "**")
    ensures r.Plain? ==> r.text == part
    ensures r.Strong? && |part| >= 4 ==> "**" + r.text + "**" == part
    ensures r.Strong? && |part| < 4 ==> r.text == []
  {
    if StartsWith(part, "**") && EndsWith(part, "**") then
      var inner := Slice(part, 2, |part| - 2);
      assert |part| >= 4 ==> part == part[..2] + part[2..|part| - 2] + part[|part| - 2..];
      Strong(inner)
    else Plain(part)
  }

  /** A captured part is shown as exactly the text between its stars. */
  lemma CapturedRendersBold(line: string, k: nat)
    requires k < |SplitBold(line)| && k % 2 == 1
    ensures Render(SplitBold(line)[k]).Strong?
    ensures "**" + Render(SplitBold(line)[k]).text + "**" == SplitBold(line)[k]
  {
    var part := SplitBold(line)[k];
    assert part[..2] == "**" && part[|part| - 2..] == "**";
  }

  /** A lone `***` (or `**`) is no match, yet it starts and ends with `**`:
      it is shown as an empty bold run and its stars vanish. */
  lemma StarsOnlyVanish()
    ensures SplitBold("***") == ["***"]
    ensures Render("***") == Strong("")
  {
    assert BoldAt("***", 0) == None;
    assert BoldAt("***", 1) == None;
    assert BoldAt("***", 2) == None;
  }

  /** `text.split('\n')`. */
  function SplitLines(s: string): (lines: seq<string>)
    ensures |lines| >= 1
    ensures forall k :: 0 <= k < |lines| ==> '\n' !in lines[k]
    ensures JoinLines(lines) == s
    decreases |s|
  {
    if '\n' !in s then [s]
    else
      var i := FirstNewline(s);
      var rest := SplitLines(s[i + 1..]);
      assert ([s[..i]] + rest)[1..] == rest;
      assert s == s[..i] + "\n" + s[i + 1..];
      [s[..i]] + rest
  }

  function FirstNewline(s: string): (i: nat)
    requires '\n' in s
    ensures i < |s| && s[i] == '\n' && '\n' !in s[..i]
  {
    if s[0] == '\n' then 0
    else
      var j := FirstNewline(s[1..]);
      assert s[..j + 1] == [s[0]] + s[1..][..j];
      j + 1
  }

  /** The lines joined back with `\n`. */
  function JoinLines(lines: seq<string>): string
    requires |lines| >= 1
  {
    if |lines| == 1 then lines[0] else lines[0] + "\n" + JoinLines(lines[1..])
  }

  /** `FormattedText`: nothing for the empty text, otherwise a paragraph per
      line, each the rendering of its parts. */
  function FormattedText(text: string): (r: Option<seq<seq<Piece>>>)
    ensures r.None? <==> |text| == 0
    ensures r.Some? ==> |r.value| == |SplitLines(text)|
    ensures r.Some? ==> forall i :: 0 <= i < |r.value| ==>
      |r.value[i]| == |SplitBold(SplitLines(text)[i])| &&
      forall j :: 0 <= j < |r.value[i]| ==> r.value[i][j] == Render(SplitBold(SplitLines(text)[i])[j])
  {
    if |text| == 0 then None
    else
      var lines := SplitLines(text);
      Some(seq(|lines|, i requires 0 <= i < |lines| =>
        var parts := SplitBold(lines[i]);
        seq(|parts|, j requires 0 <= j < |parts| => Render(parts[j]))))
  }

  // ---------------------------------------------------------------------------
  // LoadingState: the progress recurrence, in half-percent units
  // ---------------------------------------------------------------------------

  /** One tick of `setProgress(prev => prev >= 90 ? prev : prev + (prev < 50 ? 2 : 0.5))`,
      with progress `h / 2` per cent. Every value the recurrence reaches is a
      multiple of 0.5 below 91, so the floating-point sums are exact. */
  function Tick(h: nat): (r: nat)
    ensures h >= 180 ==> r == h
    ensures h < 100 ==> r == h + 4
    ensures 100 <= h < 180 ==> r == h + 1
  {
    if h >= 180 then h else h + (if h < 100 then 4 else 1)
  }

  /** The progress after `n` ticks from 0. */
  function Progress(n: nat): nat {
    if n == 0 then 0 else Tick(Progress(n - 1))
  }

  /** Closed form: 2% a tick up to 50%, then 0.5% a tick, stopping at 90%. */
  lemma {:induction false} ProgressClosedForm(n: nat)
    ensures n <= 25 ==> Progress(n) == 4 * n
    ensures 25 < n ==> Progress(n) == if 100 + (n - 25) < 180 then 100 + (n - 25) else 180
  {
    if n > 0 {
      ProgressClosedForm(n - 1);
    }
  }

  /** The progress never decreases and never passes 90%. */
  lemma ProgressBounded(n: nat)
    ensures Progress(n) <= Progress(n + 1)
    ensures Progress(n) <= 180
    ensures n >= 105 ==> Progress(n) == 180
  {
    ProgressClosedForm(n);
    ProgressClosedForm(n + 1);
  }

  /** The messages shown as the progress passes 20, 40, 60 and 80 per cent;
      at exactly those values the message stays as it was. */
  function Message(current: string, h: nat): (m: string)
    ensures (h <= 40 || h == 80 || h == 120 || h == 160) ==> m == current
    ensures 40 < h < 80 ==> m == "正在扫描掌纹细节..."
    ensures 80 < h < 120 ==> m == "正在推演生命剧本..."
    ensures 120 < h < 160 ==> m == "正在感应能量流动..."
    ensures 160 < h ==> m == "正在生成命理报告..."
  {
    var m1 := if 40 < h < 80 then "正在扫描掌纹细节..." else current;
    var m2 := if 80 < h < 120 then "正在推演生命剧本..." else m1;
    var m3 := if 120 < h < 160 then "正在感应能量流动..." else m2;
    if h > 160 then "正在生成命理报告..." else m3
  }
}
