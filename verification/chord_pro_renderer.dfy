/** The custom HTML rendering of a parsed chord sheet, used when chords are
    shown to the right of the lyrics or hidden. The song arrives already
    parsed (and transposed) by the chord-sheet library: a sequence of lines,
    each either a comment or a list of items carrying optional chords and
    optional lyrics. HTML escaping is the caller's `esc`, left unspecified. */
module ChordProRenderer {
  import opened Wrappers
  import opened Text

  /** One item of a parsed line: chord text and lyric text, each possibly
      absent (`null`/`undefined` in the parsed song). */
  datatype Item = Item(chords: Option<string>, lyrics: Option<string>)

  /** A parsed line: a comment, or any other line with a possibly absent
      item list. */
  datatype Line = CommentLine(comment: Option<string>) | ItemLine(items: Option<seq<Item>>)

  /** Where chords go: to the right of the lyrics, or nowhere. */
  datatype Mode = Right | Hidden

  const EmptyLineHtml: string := "<div class=\"line\"><div class=\"lyrics\"> </div></div>"

  /** The item has chord text that is present and non-empty (truthy). */
  predicate HasChord(item: Item) {
    item.chords.Some? && item.chords.value != ""
  }

  /** What the item adds to the line's lyrics: its text, or nothing when absent. */
  function LyricsOf(item: Item): string {
    item.lyrics.GetOr("")
  }

  /** The lyrics of a run of items: their texts concatenated in order, so
      empty exactly when every item's text is absent or empty. */
  function LineLyrics(items: seq<Item>): (r: string)
    ensures r == "" <==> forall k :: 0 <= k < |items| ==> LyricsOf(items[k]) == ""
  {
    if |items| == 0 then "" else LineLyrics(items[..|items| - 1]) + LyricsOf(items[|items| - 1])
  }

  /** The chords of a run of items: the non-empty ones, in item order. */
  function LineChords(items: seq<Item>): (cs: seq<string>)
    ensures |cs| <= |items|
    ensures forall k :: 0 <= k < |cs| ==> cs[k] != ""
  {
    if |items| == 0 then []
    else
      var init := LineChords(items[..|items| - 1]);
      var last := items[|items| - 1];
      if HasChord(last) then init + [last.chords.value] else init
  }

  /** Lyrics that trim to nothing show as one space, otherwise escaped; in
      particular no lyrics at all show as the space. */
  function DisplayLyrics(lyrics: string, esc: string -> string): (r: string)
    ensures r == " " || r == esc(lyrics)
    ensures lyrics == "" ==> r == " "
  {
    if Trim(lyrics) == "" then " " else esc(lyrics)
  }

  /** The chords block of right mode, present only for a non-empty chord text. */
  function ChordsDiv(chordsText: string, esc: string -> string): string {
    if chordsText != "" then "<div class=\"chords\">" + esc(chordsText) + "</div>" else ""
  }

  const LineOpen: string := "<div class=\"line\">"

  /** The HTML of a line with at least one item: in both modes a line `div`
      wrapping the displayed lyrics. */
  function ItemsHtml(items: seq<Item>, mode: Mode, esc: string -> string): (r: string)
    ensures IsPrefix(LineOpen, r)
  {
    var displayLyrics := DisplayLyrics(LineLyrics(items), esc);
    match mode
    case Right =>
      var open := "<div class=\"line\">\n        <div class=\"lyrics\">";
      var chordsDiv := ChordsDiv(Join(LineChords(items), " "), esc);
      assert open[..|LineOpen|] == LineOpen;
      PrefixOfConcat(LineOpen, open, displayLyrics);
      PrefixOfConcat(LineOpen, open + displayLyrics, "</div>\n        ");
      PrefixOfConcat(LineOpen, open + displayLyrics + "</div>\n        ", chordsDiv);
      PrefixOfConcat(LineOpen, open + displayLyrics + "</div>\n        " + chordsDiv, "\n      </div>");
      open + displayLyrics + "</div>\n        " + chordsDiv + "\n      </div>"
    case Hidden =>
      var open := "<div class=\"line\"><div class=\"lyrics\">";
      assert open[..|LineOpen|] == LineOpen;
      PrefixOfConcat(LineOpen, open, displayLyrics);
      PrefixOfConcat(LineOpen, open + displayLyrics, "</div></div>");
      open + displayLyrics + "</div></div>"
  }

  /** The fragment one line contributes: never empty, whatever the line. */
  function RenderLine(line: Line, mode: Mode, esc: string -> string): (r: string)
    ensures |r| > 0
  {
    match line
    case CommentLine(comment) => "<div class=\"comment\">" + esc(comment.GetOr("")) + "</div>"
    case ItemLine(items) =>
      if items.None? || |items.value| == 0 then EmptyLineHtml
      else ItemsHtml(items.value, mode, esc)
  }

  /** The rendered song: the fragments of its lines, in line order; since
      every line adds something, it is empty exactly for a song without lines. */
  function RenderSong(lines: seq<Line>, mode: Mode, esc: string -> string): (r: string)
    ensures r == "" <==> |lines| == 0
  {
    if |lines| == 0 then ""
    else RenderSong(lines[..|lines| - 1], mode, esc) + RenderLine(lines[|lines| - 1], mode, esc)
  }

  /** The renderer as the application runs it: one pass over the lines that
      appends each line's fragment to `html`. */
  method RenderCustomFormat(lines: seq<Line>, mode: Mode, esc: string -> string) returns (html: string)
    ensures html == RenderSong(lines, mode, esc)
  {
    html := "";
    var n := 0;
    while n < |lines|
      invariant 0 <= n <= |lines|
      invariant html == RenderSong(lines[..n], mode, esc)
    {
      assert lines[..n + 1][..n] == lines[..n];
      assert RenderSong(lines[..n + 1], mode, esc) == RenderSong(lines[..n], mode, esc) + RenderLine(lines[n], mode, esc);
      var fragment := LineFragment(lines[n], mode, esc);
      html := html + fragment;
      n := n + 1;
    }
    assert lines[..n] == lines;
  }

  /** The body of the line loop: a comment, an empty line, or a pass over the
      items that appends to the lyrics and collects the chords. */
  method LineFragment(line: Line, mode: Mode, esc: string -> string) returns (fragment: string)
    ensures fragment == RenderLine(line, mode, esc)
  {
    if line.CommentLine? {
      fragment := "<div class=\"comment\">" + esc(line.comment.GetOr("")) + "</div>";
      return;
    }
    if line.items.None? || |line.items.value| == 0 {
      fragment := EmptyLineHtml;
      return;
    }
    var items := line.items.value;
    var lyrics := "";
    var chords: seq<string> := [];
    var j := 0;
    while j < |items|
      invariant 0 <= j <= |items|
      invariant lyrics == LineLyrics(items[..j])
      invariant chords == LineChords(items[..j])
    {
      var item := items[j];
      assert items[..j + 1][..j] == items[..j];
      if item.chords.Some? && item.chords.value != "" {
        chords := chords + [item.chords.value];
      }
      if item.lyrics.Some? {
        lyrics := lyrics + item.lyrics.value;
      }
      j := j + 1;
    }
    assert items[..j] == items;
    var chordsText := Join(chords, " ");
    var displayLyrics := if Trim(lyrics) == "" then " " else esc(lyrics);
    if mode == Right {
      var chordsDiv := if chordsText != "" then "<div class=\"chords\">" + esc(chordsText) + "</div>" else "";
      fragment := "<div class=\"line\">\n        <div class=\"lyrics\">" + displayLyrics + "</div>\n        "
        + chordsDiv + "\n      </div>";
    } else {
      fragment := "<div class=\"line\"><div class=\"lyrics\">" + displayLyrics + "</div></div>";
    }
  }

  // ---------------------------------------------------------------------------
  // Properties of the rendering
  // ---------------------------------------------------------------------------

  /** Rendering distributes over concatenation of songs. */
  lemma {:induction false} RenderSongAppend(a: seq<Line>, b: seq<Line>, mode: Mode, esc: string -> string)
    ensures RenderSong(a + b, mode, esc) == RenderSong(a, mode, esc) + RenderSong(b, mode, esc)
    decreases |b|
  {
    if |b| == 0 {
      assert a + b == a;
    } else {
      var b', last := b[..|b| - 1], b[|b| - 1];
      assert (a + b)[..|a + b| - 1] == a + b';
      assert (a + b)[|a + b| - 1] == last;
      RenderSongAppend(a, b', mode, esc);
      var x, y, z := RenderSong(a, mode, esc), RenderSong(b', mode, esc), RenderLine(last, mode, esc);
      calc {
        RenderSong(a + b, mode, esc);
        RenderSong(a + b', mode, esc) + z;
        (x + y) + z;
        { ConcatAssoc(x, y, z); }
        x + (y + z);
        x + RenderSong(b, mode, esc);
      }
    }
  }

  /** A line's fragment sits between those of the lines before and after it. */
  lemma RenderSongSplit(before: seq<Line>, line: Line, after: seq<Line>, mode: Mode, esc: string -> string)
    ensures RenderSong(before + [line] + after, mode, esc)
         == RenderSong(before, mode, esc) + RenderLine(line, mode, esc) + RenderSong(after, mode, esc)
  {
    RenderSongAppend(before + [line], after, mode, esc);
    assert (before + [line])[..|before|] == before;
  }

  /** A comment line emits exactly a comment `div` holding the escaped
      comment text (or the escaped empty string when there is none). */
  lemma CommentLineFragment(before: seq<Line>, comment: Option<string>, after: seq<Line>, mode: Mode, esc: string -> string)
    ensures RenderSong(before + [CommentLine(comment)] + after, mode, esc)
         == RenderSong(before, mode, esc)
            + ("<div class=\"comment\">" + esc(if comment.Some? then comment.value else "") + "</div>")
            + RenderSong(after, mode, esc)
  {
    RenderSongSplit(before, CommentLine(comment), after, mode, esc);
  }

  /** A non-comment line without items emits exactly an empty lyrics `div`,
      in either mode. */
  lemma EmptyLineFragment(before: seq<Line>, items: Option<seq<Item>>, after: seq<Line>, mode: Mode, esc: string -> string)
    requires items.None? || items.value == []
    ensures RenderSong(before + [ItemLine(items)] + after, mode, esc)
         == RenderSong(before, mode, esc)
            + "<div class=\"line\"><div class=\"lyrics\"> </div></div>"
            + RenderSong(after, mode, esc)
  {
    RenderSongSplit(before, ItemLine(items), after, mode, esc);
  }

  /** The lyrics of a line are those of its parts, joined in order. */
  lemma {:induction false} LineLyricsAppend(a: seq<Item>, b: seq<Item>)
    ensures LineLyrics(a + b) == LineLyrics(a) + LineLyrics(b)
    decreases |b|
  {
    if |b| == 0 {
      assert a + b == a;
    } else {
      var init := b[..|b| - 1];
      assert (a + b)[..|a + b| - 1] == a + init;
      LineLyricsAppend(a, init);
      calc {
        LineLyrics(a + b);
        LineLyrics(a + init) + LyricsOf(b[|b| - 1]);
        (LineLyrics(a) + LineLyrics(init)) + LyricsOf(b[|b| - 1]);
        { ConcatAssoc(LineLyrics(a), LineLyrics(init), LyricsOf(b[|b| - 1])); }
        LineLyrics(a) + LineLyrics(b);
      }
    }
  }

  /** An item without lyrics contributes nothing to the line's lyrics. */
  lemma LyriclessItemAddsNothing(a: seq<Item>, chords: Option<string>, b: seq<Item>)
    ensures LineLyrics(a + [Item(chords, None)] + b) == LineLyrics(a + b)
  {
    LineLyricsAppend(a + [Item(chords, None)], b);
    LineLyricsAppend(a, b);
    assert (a + [Item(chords, None)])[..|a|] == a;
  }

  /** The chords of a line are those of its parts, in order. */
  lemma {:induction false} LineChordsAppend(a: seq<Item>, b: seq<Item>)
    ensures LineChords(a + b) == LineChords(a) + LineChords(b)
    decreases |b|
  {
    if |b| == 0 {
      assert a + b == a;
    } else {
      assert (a + b)[..|a + b| - 1] == a + b[..|b| - 1];
      LineChordsAppend(a, b[..|b| - 1]);
    }
  }

  /** An item whose chord text is absent or empty is skipped; one with chord
      text appends it at its position. */
  lemma ItemChordsInOrder(a: seq<Item>, item: Item, b: seq<Item>)
    ensures LineChords(a + [item] + b)
         == LineChords(a) + (if HasChord(item) then [item.chords.value] else []) + LineChords(b)
  {
    LineChordsAppend(a + [item], b);
    assert (a + [item])[..|a|] == a;
  }

  /** The line has a chord exactly when its chord list is non-empty. */
  lemma {:induction false} LineChordsEmptyIff(items: seq<Item>)
    ensures LineChords(items) == [] <==> forall k :: 0 <= k < |items| ==> !HasChord(items[k])
  {
    if |items| > 0 {
      var init := items[..|items| - 1];
      LineChordsEmptyIff(init);
      assert forall k :: 0 <= k < |init| ==> init[k] == items[k];
    }
  }

  /** In right mode, a line with items shows its lyrics `div`, followed by a
      chords `div` exactly when some item has chord text; the chords `div`
      holds the escaped chord texts joined by single spaces. */
  lemma RightModeChordsShownIff(items: seq<Item>, esc: string -> string)
    requires |items| > 0
    ensures RenderLine(ItemLine(Some(items)), Right, esc)
         == "<div class=\"line\">\n        <div class=\"lyrics\">" + DisplayLyrics(LineLyrics(items), esc)
            + "</div>\n        "
            + (if exists k :: 0 <= k < |items| && HasChord(items[k])
               then "<div class=\"chords\">" + esc(Join(LineChords(items), " ")) + "</div>"
               else "")
            + "\n      </div>"
  {
    LineChordsEmptyIff(items);
    JoinEmptyIff(LineChords(items), " ");
  }

  /** Lyrics that trim to nothing are shown as a single space; any other
      lyrics are shown escaped. */
  lemma BlankLyricsShownAsSpace(lyrics: string, esc: string -> string)
    ensures IsBlank(lyrics) ==> DisplayLyrics(lyrics, esc) == " "
    ensures !IsBlank(lyrics) ==> DisplayLyrics(lyrics, esc) == esc(lyrics)
  {
    TrimEmptyIffBlank(lyrics);
  }

  /** Two item runs that agree on every item's lyrics. */
  predicate SameLyrics(a: seq<Item>, b: seq<Item>) {
    |a| == |b| && forall k :: 0 <= k < |a| ==> a[k].lyrics == b[k].lyrics
  }

  /** Two songs that differ at most in the chords of their items. */
  predicate SameButChords(s: seq<Line>, t: seq<Line>) {
    |s| == |t|
    && forall k :: 0 <= k < |s| ==>
         match s[k]
         case CommentLine(_) => t[k] == s[k]
         case ItemLine(None) => t[k] == s[k]
         case ItemLine(Some(items)) => t[k].ItemLine? && t[k].items.Some? && SameLyrics(items, t[k].items.value)
  }

  lemma {:induction false} SameLyricsLineLyrics(a: seq<Item>, b: seq<Item>)
    requires SameLyrics(a, b)
    ensures LineLyrics(a) == LineLyrics(b)
  {
    if |a| > 0 {
      SameLyricsLineLyrics(a[..|a| - 1], b[..|b| - 1]);
    }
  }

  /** In hidden mode the output depends only on the lyrics: changing any
      item's chords leaves the rendered song unchanged. */
  lemma {:induction false} HiddenModeIgnoresChords(s: seq<Line>, t: seq<Line>, esc: string -> string)
    requires SameButChords(s, t)
    ensures RenderSong(s, Hidden, esc) == RenderSong(t, Hidden, esc)
  {
    if |s| > 0 {
      var n := |s| - 1;
      assert SameButChords(s[..n], t[..n]);
      HiddenModeIgnoresChords(s[..n], t[..n], esc);
      match s[n]
      case CommentLine(_) =>
      case ItemLine(None) =>
      case ItemLine(Some(items)) =>
        SameLyricsLineLyrics(items, t[n].items.value);
    }
  }
}
