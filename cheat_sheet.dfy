/** src/components/CheatSheetGenerator.tsx: the A4 preview of the cheat sheet — one
    block per line of the Markdown text, and `**bold**` spans inside list items and
    paragraphs. The rendered elements are modelled as the `Block` and `Inline` values. */
module CheatSheetPreview {
  import opened Common
  import opened Model
  import opened Storage

  // ---------------------------------------------------------------------------
  // Inline spans: `text.split(/(\*\*.*?\*\*)/g)`
  // ---------------------------------------------------------------------------

  /** The characters the regular expression's `.` does not match. */
  predicate IsLineTerminator(c: char) {
    c == '\n' || c == '\r' || c == '\U{2028}' || c == '\U{2029}'
  }

  /** `**` starts at `i`. */
  predicate StarsAt(s: string, i: nat) {
    i + 2 <= |s| && s[i] == '*' && s[i + 1] == '*'
  }

  /** The lazy `.*?\*\*` tried from `j`: the end of the nearest `**` at or after `j`,
      provided no line terminator comes before it. */
  function CloseFrom(s: string, j: nat): (r: Option<nat>)
    ensures r.Some? ==> j + 2 <= r.value <= |s| && StarsAt(s, r.value - 2)
    ensures r.Some? ==> forall k :: j <= k < r.value - 2 ==> !StarsAt(s, k) && !IsLineTerminator(s[k])
    ensures r.None? ==> forall k :: j <= k && StarsAt(s, k) ==> exists m :: j <= m < k && IsLineTerminator(s[m])
    decreases |s| - j
  {
    if j + 2 > |s| then None
    else if StarsAt(s, j) then Some(j + 2)
    else if IsLineTerminator(s[j]) then None
    else CloseFrom(s, j + 1)
  }

  /** The end of a match of `\*\*.*?\*\*` starting at `q`, if there is one. */
  function MatchAt(s: string, q: nat): (r: Option<nat>)
    ensures r.Some? ==> q + 4 <= r.value <= |s| && StarsAt(s, q) && StarsAt(s, r.value - 2)
  {
    if StarsAt(s, q) then CloseFrom(s, q + 2) else None
  }

  /** The split loop of `String.prototype.split` with a regular expression: `p` is where
      the current piece began, `q` the position tried next; each match contributes the
      text before it and, through the capturing group, the match itself. */
  function SplitFrom(s: string, p: nat, q: nat): seq<string>
    requires p <= q <= |s|
    decreases |s| - q
  {
    if q == |s| then [s[p..]]
    else
      match MatchAt(s, q)
      case Some(e) => [s[p..q], s[q..e]] + SplitFrom(s, e, e)
      case None => SplitFrom(s, p, q + 1)
  }

  function SplitBold(s: string): seq<string> {
    SplitFrom(s, 0, 0)
  }

  function Concat(parts: seq<string>): string {
    if parts == [] then "" else parts[0] + Concat(parts[1..])
  }

  /** A matched span: at least `****`, opening and closing with `**`. */
  predicate IsSpan(part: string) {
    |part| >= 4 && StartsWith(part, "**") && EndsWith(part, "**")
  }

  /** Text pieces and matched spans alternate, starting and ending with a text piece. */
  predicate Alternates(parts: seq<string>)
    decreases |parts|
  {
    |parts| == 1 || (|parts| >= 3 && IsSpan(parts[1]) && Alternates(parts[2..]))
  }

  /** A match found at `q` is a span. */
  lemma SpanAt(s: string, q: nat, e: nat)
    requires q <= |s| && MatchAt(s, q) == Some(e)
    ensures q <= e <= |s| && IsSpan(s[q..e])
  {
    assert s[q..e][..2] == s[q..q + 2] && s[q..e][|s[q..e]| - 2..] == s[e - 2..e];
  }

  /** Putting a text piece and a span in front keeps both properties. */
  lemma PrependPieces(a: string, b: string, rest: seq<string>)
    requires IsSpan(b) && Alternates(rest)
    ensures Concat([a, b] + rest) == a + (b + Concat(rest))
    ensures Alternates([a, b] + rest)
  {
    var r := [a, b] + rest;
    assert r[1..] == [b] + rest && r[1..][1..] == rest;
    assert r[2..] == rest;
  }

  /** The text before a span, the span and pieces that rebuild the rest rebuild
      everything from `p` on. */
  lemma SpanThenRest(s: string, p: nat, q: nat, e: nat, rest: seq<string>)
    requires p <= q <= e <= |s| && IsSpan(s[q..e])
    requires Concat(rest) == s[e..] && Alternates(rest)
    ensures Concat([s[p..q], s[q..e]] + rest) == s[p..]
    ensures Alternates([s[p..q], s[q..e]] + rest)
  {
    PrependPieces(s[p..q], s[q..e], rest);
    assert s[p..] == s[p..q] + (s[q..e] + s[e..]);
  }

  lemma {:induction false} SplitFromParts(s: string, p: nat, q: nat)
    requires p <= q <= |s|
    ensures Concat(SplitFrom(s, p, q)) == s[p..]
    ensures Alternates(SplitFrom(s, p, q))
    decreases |s| - q
  {
    if q < |s| {
      match MatchAt(s, q)
      case Some(e) =>
        SpanAt(s, q, e);
        SplitFromParts(s, e, e);
        SpanThenRest(s, p, q, e, SplitFrom(s, e, e));
      case None =>
        SplitFromParts(s, p, q + 1);
    }
  }

  /** Concatenating the pieces gives the text back, and the pieces alternate between
      plain text and matched spans. */
  lemma SplitBoldParts(s: string)
    ensures Concat(SplitBold(s)) == s
    ensures Alternates(SplitBold(s))
  {
    SplitFromParts(s, 0, 0);
  }

  /** A text with no `**` in it is a single piece. */
  lemma {:induction false} NoStarsOnePiece(s: string, p: nat, q: nat)
    requires p <= q <= |s|
    requires forall i :: 0 <= i < |s| ==> !StarsAt(s, i)
    ensures SplitFrom(s, p, q) == [s[p..]]
    decreases |s| - q
  {
    if q < |s| {
      NoStarsOnePiece(s, p, q + 1);
    }
  }

  // ---------------------------------------------------------------------------
  // Rendering the pieces
  // ---------------------------------------------------------------------------

  datatype Inline = Plain(text: string) | Bold(text: string)

  /** `part.slice(2, -2)`: empty when fewer than four characters remain. */
  function Inner(part: string): (r: string)
    ensures |part| >= 4 ==> "**" + r + "**" == part || !(StartsWith(part, "**") && EndsWith(part, "**"))
    ensures |part| < 4 ==> r == ""
  {
    if |part| >= 4 then part[2..|part| - 2] else ""
  }

  /** A piece opening and closing with `**` becomes `<strong>`, any other piece text. */
  function RenderPart(part: string): Inline {
    if StartsWith(part, "**") && EndsWith(part, "**") then Bold(Inner(part)) else Plain(part)
  }

  function RenderAll(parts: seq<string>): (r: seq<Inline>)
    ensures |r| == |parts|
    ensures forall i :: 0 <= i < |parts| ==> r[i] == RenderPart(parts[i])
  {
    if parts == [] then [] else [RenderPart(parts[0])] + RenderAll(parts[1..])
  }

  /** `parseInline`. */
  function ParseInline(text: string): seq<Inline> {
    RenderAll(SplitBold(text))
  }

  /** A piece is bold exactly when it opens and closes with `**`; a bold piece of four
      or more characters is its text wrapped in `**`, and shorter ones (`**`, `***`)
      give empty bold text. */
  lemma RenderPartSpec(part: string)
    ensures RenderPart(part).Bold? <==> StartsWith(part, "**") && EndsWith(part, "**")
    ensures RenderPart(part).Plain? ==> RenderPart(part).text == part
    ensures RenderPart(part).Bold? && |part| >= 4 ==> "**" + RenderPart(part).text + "**" == part
    ensures RenderPart(part).Bold? && |part| < 4 ==> RenderPart(part).text == ""
  {
  }

  /** A lone `**` becomes an empty bold element. */
  lemma LoneStarsEmptyBold()
    ensures ParseInline("**") == [Bold("")]
  {
    assert !StarsAt("**", 1);
    assert MatchAt("**", 0).None?;
    assert MatchAt("**", 1).None?;
    assert SplitFrom("**", 0, 2) == ["**"];
    assert SplitBold("**") == ["**"];
    assert RenderPart("**") == Bold("");
  }

  /** The pieces at odd positions are the matched spans. */
  lemma {:induction false} AlternatesOdd(parts: seq<string>, i: nat)
    requires Alternates(parts) && i < |parts| / 2
    ensures IsSpan(parts[2 * i + 1])
    decreases |parts|
  {
    if i > 0 {
      AlternatesOdd(parts[2..], i - 1);
      assert parts[2..][2 * (i - 1) + 1] == parts[2 * i + 1];
    }
  }

  /** The text splits into an odd number of pieces, each matched span renders bold
      with two characters dropped at each end, and the element at position `2i+1` is
      such a span. */
  lemma ParseInlineSpans(s: string, i: nat)
    requires i < |SplitBold(s)| / 2
    ensures |ParseInline(s)| == |SplitBold(s)| && |SplitBold(s)| % 2 == 1
    ensures var part := SplitBold(s)[2 * i + 1];
      IsSpan(part) && ParseInline(s)[2 * i + 1] == Bold(part[2..|part| - 2])
  {
    SplitBoldParts(s);
    AlternatesOdd(SplitBold(s), i);
    AlternatesOddLength(SplitBold(s));
  }

  lemma {:induction false} AlternatesOddLength(parts: seq<string>)
    requires Alternates(parts)
    ensures |parts| % 2 == 1
    decreases |parts|
  {
    if |parts| > 1 {
      AlternatesOddLength(parts[2..]);
    }
  }

  /** Text without `**` is one plain element. */
  lemma PlainTextStaysPlain(s: string)
    requires forall i :: 0 <= i < |s| ==> !StarsAt(s, i)
    ensures ParseInline(s) == [Plain(s)]
  {
    NoStarsOnePiece(s, 0, 0);
    assert s[0..] == s;
    if |s| >= 2 {
      assert !StarsAt(s, 0);
      assert s[..2] != "**";
    }
  }

  // ---------------------------------------------------------------------------
  // Blocks: `parseMarkdown`
  // ---------------------------------------------------------------------------

  datatype Block =
    | H3(text: string)
    | H2(text: string)
    | H1(text: string)
    | ListItem(spans: seq<Inline>)
    | Spacer
    | Paragraph(spans: seq<Inline>)

  predicate IsHeading(b: Block) { b.H1? || b.H2? || b.H3? }

  function HeadingLevel(b: Block): nat {
    match b
    case H1(_) => 1
    case H2(_) => 2
    case H3(_) => 3
    case _ => 0
  }

  /** The block for one line, the tests applied in the source's order. */
  function ClassifyLine(line: string): Block {
    if StartsWith(line, "###") then H3(line[3..])
    else if StartsWith(line, "##") then H2(line[2..])
    else if StartsWith(line, "#") then H1(line[1..])
    else if StartsWith(line, "-") then ListItem(ParseInline(line[1..]))
    else if Trim(line) == "" then Spacer
    else Paragraph(ParseInline(line))
  }

  function ClassifyAll(lines: seq<string>): (r: seq<Block>)
    ensures |r| == |lines|
    ensures forall i :: 0 <= i < |lines| ==> r[i] == ClassifyLine(lines[i])
  {
    if lines == [] then [] else [ClassifyLine(lines[0])] + ClassifyAll(lines[1..])
  }

  /** `parseMarkdown`. */
  function ParseMarkdown(text: string): seq<Block> {
    ClassifyAll(Split(text, '\n'))
  }

  /** The number of `#` characters at the start of a line. */
  function LeadingHashes(line: string): (n: nat)
    ensures n <= |line|
    ensures forall i :: 0 <= i < n ==> line[i] == '#'
    ensures n < |line| ==> line[n] != '#'
  {
    if line != [] && line[0] == '#' then 1 + LeadingHashes(line[1..]) else 0
  }

  /** One block per line: as many blocks as newlines plus one, the i-th block made from
      the i-th line. */
  lemma OneBlockPerLine(text: string)
    ensures |ParseMarkdown(text)| == Count(text, '\n') + 1
    ensures forall i :: 0 <= i < |ParseMarkdown(text)| ==>
      '\n' !in Split(text, '\n')[i] && ParseMarkdown(text)[i] == ClassifyLine(Split(text, '\n')[i])
  {
  }

  /** The blocks of two texts joined by a newline are the blocks of each. */
  lemma ParseMarkdownLines(a: string, b: string)
    requires '\n' !in a
    ensures ParseMarkdown(a + "\n" + b) == [ClassifyLine(a)] + ParseMarkdown(b)
  {
    assert a + "\n" + b == a + ['\n'] + b;
    SplitPrefix(a, b, '\n');
    assert ([a] + Split(b, '\n'))[1..] == Split(b, '\n');
  }

  lemma ClassifyThreeHashes(line: string)
    requires |line| >= 3 && line[0] == '#' && line[1] == '#' && line[2] == '#'
    ensures ClassifyLine(line) == H3(line[3..])
  {
    assert line[..3] == "###";
  }

  lemma ClassifyTwoHashes(line: string)
    requires |line| >= 2 && line[0] == '#' && line[1] == '#' && (|line| == 2 || line[2] != '#')
    ensures ClassifyLine(line) == H2(line[2..])
  {
    assert line[..2] == "##";
    assert !StartsWith(line, "###");
  }

  lemma ClassifyOneHash(line: string)
    requires |line| >= 1 && line[0] == '#' && (|line| == 1 || line[1] != '#')
    ensures ClassifyLine(line) == H1(line[1..])
  {
    assert line[..1] == "#";
    assert !StartsWith(line, "##") && !StartsWith(line, "###");
  }

  lemma ClassifyNoHash(line: string)
    requires line == [] || line[0] != '#'
    ensures !IsHeading(ClassifyLine(line))
  {
    assert !StartsWith(line, "#") && !StartsWith(line, "##") && !StartsWith(line, "###");
  }

  /** A line is a heading exactly when it starts with `#`; its level is the number of
      leading `#` characters capped at three, its text the rest of the line, kept
      without inline parsing. */
  lemma HeadingByHashes(line: string)
    ensures IsHeading(ClassifyLine(line)) <==> LeadingHashes(line) >= 1
    ensures IsHeading(ClassifyLine(line)) ==>
      HeadingLevel(ClassifyLine(line)) == (if LeadingHashes(line) >= 3 then 3 else LeadingHashes(line)) &&
      ClassifyLine(line).text == line[HeadingLevel(ClassifyLine(line))..]
  {
    var n := LeadingHashes(line);
    if n >= 3 {
      ClassifyThreeHashes(line);
    } else if n == 2 {
      ClassifyTwoHashes(line);
    } else if n == 1 {
      ClassifyOneHash(line);
    } else {
      ClassifyNoHash(line);
    }
  }

  /** A line without `#` is a list item when it starts with `-` (its text after the
      dash parsed inline), otherwise a spacer exactly when it is blank, otherwise a
      paragraph of the whole line parsed inline. */
  lemma BodyLines(line: string)
    requires !StartsWith(line, "#")
    ensures StartsWith(line, "-") ==> ClassifyLine(line) == ListItem(ParseInline(line[1..]))
    ensures !StartsWith(line, "-") ==> (ClassifyLine(line) == Spacer <==> AllSpace(line))
    ensures !StartsWith(line, "-") && !AllSpace(line) ==> ClassifyLine(line) == Paragraph(ParseInline(line))
  {
  }

  /** A dash line is a list item even when it is otherwise blank, and a blank line
      starting with `#` is still a heading: the blank test comes after the prefixes. */
  lemma PrefixBeforeBlank()
    ensures ClassifyLine("-") == ListItem([Plain("")])
    ensures ClassifyLine("#") == H1("")
  {
    assert StartsWith("-", "-") && !StartsWith("-", "#");
    assert ParseInline("") == [Plain("")] by {
      PlainTextStaysPlain("");
    }
    assert "-"[1..] == "";
  }

  // ---------------------------------------------------------------------------
  // The editor
  // ---------------------------------------------------------------------------

  /** The editor's text and the time it was last saved (the ISO string; its local
      rendering is not modelled). */
  class Editor {
    var content: string
    var lastSaved: string
    const store: Store

    /** The mount effect: the stored sheet, or the default one stamped with `nowIso`. */
    constructor (store: Store, nowIso: string)
      ensures this.store == store
      ensures content == GetCheatSheet(store.data, nowIso).content
      ensures lastSaved == GetCheatSheet(store.data, nowIso).lastModified
    {
      this.store := store;
      var sheet := GetCheatSheet(store.data, nowIso);
      content := sheet.content;
      lastSaved := sheet.lastModified;
    }

    /** The text area. */
    method SetContent(text: string)
      modifies this
      ensures content == text && lastSaved == old(lastSaved)
    {
      content := text;
    }

    /** `handleSave`, and the save `handlePrint` makes before opening the print dialog:
        the text is stored with the time `nowIso`, which becomes the time shown. */
    method HandleSave(nowIso: string)
      requires store.Valid()
      modifies this, store
      ensures store.Valid()
      ensures store.data == old(store.data)[CheatSheetKey := CheatSheetValue(CheatSheet(old(content), nowIso))]
      ensures content == old(content) && lastSaved == nowIso
      ensures GetCheatSheet(store.data, nowIso) == CheatSheet(content, lastSaved)
    {
      store.SaveCheatSheet(CheatSheet(content, nowIso));
      lastSaved := nowIso;
    }
  }
}
