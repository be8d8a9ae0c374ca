/**
 * `formatChat`: the chat entry the overlay builds from a parsed PRIVMSG.
 * It picks the name, id and accent colour, strips the `@name ` mention of a
 * reply, extracts a `!command`, and splits the text around the emotes the
 * `emotes` tag locates into text parts and `\!id` markers.
 *
 * A `TypeError` thrown while building the entry (a missing tag block, a
 * missing source without a display name, missing parameters, an emote
 * group without `:`) is the outcome `None`.
 */
module ChatFormat {
  import opened Wrappers
  import opened JsString
  import opened IrcMessage
  import ChatColor

  /** `format.content`: a string, an array of parts, or `null` (set by the GIF rule). */
  datatype Content = Plain(text: string) | Parts(parts: seq<string>) | NoContent

  /** The `format` object; `command` and `background` are `None` while unset. */
  datatype ChatEntry = ChatEntry(
    name: Option<string>,
    id: Option<string>,
    color: string,
    host: Option<string>,
    reply: Option<string>,
    command: Option<string>,
    content: Content,
    background: Option<string>,
    alert: bool)

  /** `tags[k]`: `undefined` for a missing key. */
  function Lookup(tags: Tags, k: string): TagValue {
    if k in tags then tags[k] else Undefined
  }

  /** A tag value JavaScript reads as true: a non-empty string. */
  predicate Truthy(v: TagValue) {
    v.Text? && v.text != ""
  }

  // ---------------------------------------------------------------------
  // Command extraction

  /**
   * The command and the remaining text of content that starts with `!`: the
   * command runs from after the `!` to the first space (or the end, when the
   * first space is missing or right at the start), upper-cased; the rest is
   * what follows that space, trimmed.
   */
  function ExtractCommand(content: string): (string, string) {
    var space := IndexOf(content, ' ', 0);
    var end := if space < 1 then |content| else space;
    (ToUpper(Slice(content, 1, end)), Trim(Slice(content, end + 1, |content|)))
  }

  /** `!token rest` gives the upper-cased token and the trimmed rest. */
  lemma {:induction false} ExtractCommandSpaced(token: string, rest: string)
    requires token != "" && ' ' !in token
    ensures ExtractCommand("!" + token + " " + rest) == (ToUpper(token), Trim(rest))
  {
    var c := "!" + token + " " + rest;
    var k := |token| + 1;
    forall j | 0 <= j < k ensures c[j] != ' ' {
      if j > 0 {
        assert c[j] == token[j - 1];
      }
    }
    assert c[k] == ' ';
    IndexOfAt(c, ' ', 0, k);
    SliceWithin(c, 1, k);
    SliceWithin(c, k + 1, |c|);
    assert c[1..k] == token;
    assert c[k + 1..|c|] == rest;
    assert Slice(c, k + 1, |c|) == rest;
    assert ExtractCommand(c).0 == ToUpper(token);
    assert ExtractCommand(c).1 == Trim(rest);
  }

  /** `!token` with no space gives the upper-cased token and empty text. */
  lemma {:induction false} ExtractCommandBare(token: string)
    requires ' ' !in token
    ensures ExtractCommand("!" + token) == (ToUpper(token), "")
  {
    var c := "!" + token;
    forall j | 0 <= j < |c| ensures c[j] != ' ' {
      if j > 0 {
        assert c[j] == token[j - 1];
      }
    }
    IndexOfMissing(c, ' ', 0);
    SliceWithin(c, 1, |c|);
    assert c[1..] == token;
    assert Slice(c, |c| + 1, |c|) == "";
    assert Trim("") == "";
    assert ExtractCommand(c).0 == ToUpper(token);
    assert ExtractCommand(c).1 == "";
  }

  /** The command of content starting with `!` holds no space and no lower-case ASCII letter. */
  lemma ExtractCommandShape(content: string)
    requires CharAt(content, 0) == Some('!')
    ensures ' ' !in ExtractCommand(content).0
    ensures forall k :: 0 <= k < |ExtractCommand(content).0| ==> !('a' <= ExtractCommand(content).0[k] <= 'z')
  {
    var space := IndexOf(content, ' ', 0);
    var end := if space < 1 then |content| else space;
    var token := Slice(content, 1, end);
    IndexOfFirst(content, ' ', 0);
    IndexOfFound(content, ' ', 0);
    assert space != 0;
    SliceWithin(content, 1, end);
    assert forall k :: 0 <= k < |token| ==> token[k] == content[k + 1];
    assert forall k :: 0 <= k < |token| ==> token[k] != ' ';
  }

  // ---------------------------------------------------------------------
  // Emote ranges

  /** One occurrence of an emote; `None` positions are `NaN`. */
  datatype Emote = Emote(id: string, start: Option<int>, end: Option<int>)

  /** `Number(s)` for the decimal text of emote positions: blank is 0; anything but digits is `NaN`. */
  function JsNumber(s: string): Option<int> {
    var t := Trim(s);
    if t == "" then Some(0)
    else if forall k :: 0 <= k < |t| ==> IsDigit(t[k]) then Some(DecimalValue(t))
    else None
  }

  /** `Number(x) - offset`: `NaN` stays `NaN`. */
  function Minus(x: Option<int>, offset: int): Option<int> {
    if x.None? then None else Some(x.value - offset)
  }

  /** One `start-end` occurrence, shifted down by the reply offset; a missing end is `NaN`. */
  function Occurrence(id: string, f: string, offset: int): Emote {
    var range := Split(f, '-');
    Emote(id, Minus(JsNumber(range[0]), offset), if |range| > 1 then Minus(JsNumber(range[1]), offset) else None)
  }

  function Occurrences(id: string, occ: seq<string>, offset: int): (r: seq<Emote>)
    ensures |r| == |occ|
    ensures forall k :: 0 <= k < |occ| ==> r[k] == Occurrence(id, occ[k], offset)
  {
    if occ == [] then [] else [Occurrence(id, occ[0], offset)] + Occurrences(id, occ[1..], offset)
  }

  /**
   * The emote list of an `emotes` tag `id:s-e,s-e/id:s-e`, in tag order;
   * `None` when a group has no `:` (reading its occurrences throws).
   */
  function ParseEmotes(groups: seq<string>, offset: int): Option<seq<Emote>> {
    if groups == [] then Some([])
    else
      var d := Split(groups[0], ':');
      if |d| < 2 then None
      else
        var rest := ParseEmotes(groups[1..], offset);
        if rest.None? then None else Some(Occurrences(d[0], Split(d[1], ','), offset) + rest.value)
  }

  function Shift(list: seq<Emote>, offset: int): (r: seq<Emote>)
    ensures |r| == |list|
  {
    if list == [] then []
    else [Emote(list[0].id, Minus(list[0].start, offset), Minus(list[0].end, offset))] + Shift(list[1..], offset)
  }

  /** The reply offset moves every position of the list down by the same amount. */
  lemma {:induction false} ParseEmotesShift(groups: seq<string>, offset: int)
    ensures ParseEmotes(groups, offset).Some? <==> ParseEmotes(groups, 0).Some?
    ensures ParseEmotes(groups, offset).Some? ==> ParseEmotes(groups, offset).value == Shift(ParseEmotes(groups, 0).value, offset)
    decreases |groups|
  {
    if groups != [] {
      ParseEmotesShift(groups[1..], offset);
      var d := Split(groups[0], ':');
      if |d| >= 2 && ParseEmotes(groups[1..], 0).Some? {
        var occ := Split(d[1], ',');
        OccurrencesShift(d[0], occ, offset);
        ShiftAppend(Occurrences(d[0], occ, 0), ParseEmotes(groups[1..], 0).value, offset);
      }
    }
  }

  lemma {:induction false} OccurrencesShift(id: string, occ: seq<string>, offset: int)
    ensures Occurrences(id, occ, offset) == Shift(Occurrences(id, occ, 0), offset)
    decreases |occ|
  {
    if occ != [] {
      OccurrencesShift(id, occ[1..], offset);
      assert Occurrences(id, occ, 0)[1..] == Occurrences(id, occ[1..], 0);
    }
  }

  lemma {:induction false} ShiftAppend(a: seq<Emote>, b: seq<Emote>, offset: int)
    ensures Shift(a + b, offset) == Shift(a, offset) + Shift(b, offset)
    decreases |a|
  {
    if a != [] {
      ShiftAppend(a[1..], b, offset);
      assert (a + b)[0] == a[0];
      assert (a + b)[1..] == a[1..] + b;
      var h := [Emote(a[0].id, Minus(a[0].start, offset), Minus(a[0].end, offset))];
      assert Shift(a + b, offset) == h + Shift(a[1..] + b, offset);
      assert Shift(a, offset) == h + Shift(a[1..], offset);
    } else {
      assert a + b == b;
    }
  }

  // ---------------------------------------------------------------------
  // Sorting by start

  /** The comparator `a.start - b.start` is positive: `a` belongs after `b`. */
  predicate After(a: Emote, b: Emote) {
    a.start.Some? && b.start.Some? && a.start.value > b.start.value
  }

  /** Insert into a sorted list behind every element that does not belong after it (stable). */
  function Insert(x: Emote, s: seq<Emote>): (r: seq<Emote>)
    ensures multiset(r) == multiset(s) + multiset{x}
    ensures |r| == |s| + 1
  {
    if s == [] then [x]
    else if After(s[|s| - 1], x) then
      assert s == s[..|s| - 1] + [s[|s| - 1]];
      Insert(x, s[..|s| - 1]) + [s[|s| - 1]]
    else s + [x]
  }

  /**
   * `emotelist.sort((a, b) => a.start - b.start)`, as a stable insertion
   * sort. With a `NaN` position the comparator is inconsistent and the
   * order the engine produces is not fixed by the language; this is one
   * of the orders it may produce.
   */
  function SortByStart(list: seq<Emote>): (r: seq<Emote>)
    ensures multiset(r) == multiset(list)
    ensures |r| == |list|
  {
    if list == [] then []
    else
      assert list == list[..|list| - 1] + [list[|list| - 1]];
      Insert(list[|list| - 1], SortByStart(list[..|list| - 1]))
  }

  predicate Numeric(list: seq<Emote>) {
    forall k :: 0 <= k < |list| ==> list[k].start.Some?
  }

  /** Non-decreasing start positions (a list whose positions are numeric). */
  predicate SortedByStart(list: seq<Emote>)
    requires Numeric(list)
  {
    forall j, k :: 0 <= j < k < |list| ==> list[j].start.value <= list[k].start.value
  }

  lemma {:induction false} InsertMembers(x: Emote, s: seq<Emote>)
    ensures forall e :: e in Insert(x, s) ==> e == x || e in s
    decreases |s|
  {
    if s != [] && After(s[|s| - 1], x) {
      InsertMembers(x, s[..|s| - 1]);
    }
  }

  lemma {:induction false} InsertSorted(x: Emote, s: seq<Emote>)
    requires Numeric(s) && x.start.Some? && SortedByStart(s)
    ensures Numeric(Insert(x, s)) && SortedByStart(Insert(x, s))
    decreases |s|
  {
    var r := Insert(x, s);
    InsertMembers(x, s);
    forall k | 0 <= k < |r| ensures r[k].start.Some? {
      assert r[k] in r;
      if r[k] != x {
        var j :| 0 <= j < |s| && s[j] == r[k];
      }
    }
    if s == [] {
    } else if After(s[|s| - 1], x) {
      var init := s[..|s| - 1];
      var last := s[|s| - 1];
      assert forall k :: 0 <= k < |init| ==> init[k] == s[k];
      InsertSorted(x, init);
      InsertMembers(x, init);
      var ri := Insert(x, init);
      assert r == ri + [last];
      forall k | 0 <= k < |ri| ensures ri[k].start.value <= last.start.value {
        assert ri[k] in ri;
        if ri[k] != x {
          var j :| 0 <= j < |init| && init[j] == ri[k];
        }
      }
      forall j, k | 0 <= j < k < |r| ensures r[j].start.value <= r[k].start.value {
        if k < |ri| {
          assert r[j] == ri[j] && r[k] == ri[k];
        } else {
          assert r[j] == ri[j] && r[k] == last;
        }
      }
    } else {
      assert r == s + [x];
      forall j, k | 0 <= j < k < |r| ensures r[j].start.value <= r[k].start.value {
        if k < |s| {
          assert r[j] == s[j] && r[k] == s[k];
        } else {
          assert r[j] == s[j] && r[k] == x;
          assert s[j].start.value <= s[|s| - 1].start.value;
        }
      }
    }
  }

  /** With numeric positions, the sort yields the same emotes in non-decreasing start order. */
  lemma {:induction false} SortByStartSorted(list: seq<Emote>)
    requires Numeric(list)
    ensures multiset(SortByStart(list)) == multiset(list)
    ensures Numeric(SortByStart(list)) && SortedByStart(SortByStart(list))
    decreases |list|
  {
    if list != [] {
      var init := list[..|list| - 1];
      assert Numeric(init) by {
        forall k | 0 <= k < |init| ensures init[k] == list[k] { }
      }
      SortByStartSorted(init);
      InsertSorted(list[|list| - 1], SortByStart(init));
    }
  }

  // ---------------------------------------------------------------------
  // Segmentation

  /** What the segmentation loop pushes: a text part or an emote marker. */
  datatype Piece = TextPiece(text: string) | EmotePiece(id: string)

  /** The string pushed for a piece: the text, or `\!` and the emote id. */
  function Render(pieces: seq<Piece>): (r: seq<string>)
    ensures |r| == |pieces|
  {
    if pieces == [] then []
    else [if pieces[0].TextPiece? then pieces[0].text else "\\!" + pieces[0].id] + Render(pieces[1..])
  }

  lemma {:induction false} RenderAppend(a: seq<Piece>, b: seq<Piece>)
    ensures Render(a + b) == Render(a) + Render(b)
    decreases |a|
  {
    if a != [] {
      RenderAppend(a[1..], b);
      assert (a + b)[0] == a[0];
      assert (a + b)[1..] == a[1..] + b;
      var h := [if a[0].TextPiece? then a[0].text else "\\!" + a[0].id];
      assert Render(a + b) == h + Render(a[1..] + b);
      assert Render(a) == h + Render(a[1..]);
    } else {
      assert a + b == b;
    }
  }

  /** `slice` reads a `NaN` position as 0. */
  function Pos(x: Option<int>): int {
    if x.None? then 0 else x.value
  }

  /** The end marker `{ start: content.length, end: -1 }` pushed after sorting. */
  function Sentinel(content: string): Emote {
    Emote("", Some(|content|), Some(-1))
  }

  /** The text between the cursor and an emote's start, trimmed; nothing when that is empty. */
  function Gap(content: string, idx: Option<int>, start: Option<int>): seq<Piece> {
    var sub := Trim(Slice(content, Pos(idx), Pos(start)));
    if |sub| > 0 then [TextPiece(sub)] else []
  }

  /**
   * The segmentation loop: for each emote, the gap before it, then (unless
   * its end is negative, as the sentinel's is) its marker, and the cursor
   * moves to its end plus one.
   */
  function Segment(content: string, list: seq<Emote>, idx: Option<int>): seq<Piece> {
    if list == [] then []
    else
      var e := list[0];
      if e.end.Some? && e.end.value < 0 then Gap(content, idx, e.start) + Segment(content, list[1..], idx)
      else Gap(content, idx, e.start) + [EmotePiece(e.id)] + Segment(content, list[1..], Minus(e.end, -1))
  }

  /** Every text part is non-empty and has no white space at either end. */
  predicate TextTrimmed(pieces: seq<Piece>) {
    forall k :: 0 <= k < |pieces| && pieces[k].TextPiece? ==> pieces[k].text != "" && Trim(pieces[k].text) == pieces[k].text
  }

  lemma TextTrimmedAppend(a: seq<Piece>, b: seq<Piece>)
    requires TextTrimmed(a) && TextTrimmed(b)
    ensures TextTrimmed(a + b)
  {
    forall k | 0 <= k < |a + b| && (a + b)[k].TextPiece?
      ensures (a + b)[k].text != "" && Trim((a + b)[k].text) == (a + b)[k].text
    {
      if k < |a| {
        assert (a + b)[k] == a[k];
      } else {
        assert (a + b)[k] == b[k - |a|];
      }
    }
  }

  lemma GapTrimmed(content: string, idx: Option<int>, start: Option<int>)
    ensures TextTrimmed(Gap(content, idx, start))
  {
    var sub := Trim(Slice(content, Pos(idx), Pos(start)));
    if |sub| > 0 {
      TrimInside(Slice(content, Pos(idx), Pos(start)));
      TrimTrimmed(sub);
    }
  }

  /** The segmentation only ever pushes non-empty, trimmed text. */
  lemma {:induction false} SegmentTextTrimmed(content: string, list: seq<Emote>, idx: Option<int>)
    ensures TextTrimmed(Segment(content, list, idx))
    decreases |list|
  {
    if list != [] {
      var e := list[0];
      var gap := Gap(content, idx, e.start);
      GapTrimmed(content, idx, e.start);
      if e.end.Some? && e.end.value < 0 {
        SegmentTextTrimmed(content, list[1..], idx);
        TextTrimmedAppend(gap, Segment(content, list[1..], idx));
      } else {
        SegmentTextTrimmed(content, list[1..], Minus(e.end, -1));
        TextTrimmedAppend(gap, [EmotePiece(e.id)]);
        TextTrimmedAppend(gap + [EmotePiece(e.id)], Segment(content, list[1..], Minus(e.end, -1)));
      }
    }
  }

  /** The emote ids of a piece list, in order. */
  function EmoteIds(pieces: seq<Piece>): seq<string> {
    if pieces == [] then []
    else (if pieces[0].EmotePiece? then [pieces[0].id] else []) + EmoteIds(pieces[1..])
  }

  lemma {:induction false} EmoteIdsAppend(a: seq<Piece>, b: seq<Piece>)
    ensures EmoteIds(a + b) == EmoteIds(a) + EmoteIds(b)
    decreases |a|
  {
    if a != [] {
      EmoteIdsAppend(a[1..], b);
      assert (a + b)[0] == a[0];
      assert (a + b)[1..] == a[1..] + b;
      var h := if a[0].EmotePiece? then [a[0].id] else [];
      assert EmoteIds(a + b) == h + EmoteIds(a[1..] + b);
      assert EmoteIds(a) == h + EmoteIds(a[1..]);
    } else {
      assert a + b == b;
    }
  }

  /** How many elements of a list are emotes (end not negative), and their ids in order. */
  function MarkedIds(list: seq<Emote>): seq<string> {
    if list == [] then []
    else (if list[0].end.Some? && list[0].end.value < 0 then [] else [list[0].id]) + MarkedIds(list[1..])
  }

  lemma GapHasNoEmote(content: string, idx: Option<int>, start: Option<int>)
    ensures EmoteIds(Gap(content, idx, start)) == []
  {
  }

  /** The markers appear once per emote, in list order: the sentinel gives none. */
  lemma {:induction false} SegmentMarkers(content: string, list: seq<Emote>, idx: Option<int>)
    ensures EmoteIds(Segment(content, list, idx)) == MarkedIds(list)
    decreases |list|
  {
    if list != [] {
      var e := list[0];
      var idx' := if e.end.Some? && e.end.value < 0 then idx else Minus(e.end, -1);
      SegmentMarkers(content, list[1..], idx');
      GapHasNoEmote(content, idx, e.start);
      if e.end.Some? && e.end.value < 0 {
        EmoteIdsAppend(Gap(content, idx, e.start), Segment(content, list[1..], idx));
      } else {
        EmoteIdsAppend(Gap(content, idx, e.start) + [EmotePiece(e.id)], Segment(content, list[1..], idx'));
        EmoteIdsAppend(Gap(content, idx, e.start), [EmotePiece(e.id)]);
        assert EmoteIds([EmotePiece(e.id)]) == [e.id];
      }
    }
  }

  // ---------------------------------------------------------------------
  // Well-placed ranges: the text parts are exactly the trimmed gaps

  /**
   * Ranges as Twitch sends them: numeric, each inside the content, and
   * each starting at or after the cursor `from`, which the previous range
   * moved past its end.
   */
  predicate WellPlaced(content: string, ranges: seq<Emote>, from: int)
    decreases |ranges|
  {
    ranges == [] ||
    (&& ranges[0].start.Some? && ranges[0].end.Some?
     && from <= ranges[0].start.value <= ranges[0].end.value < |content|
     && WellPlaced(content, ranges[1..], ranges[0].end.value + 1))
  }

  function Kept(s: string): seq<Piece> {
    if |s| > 0 then [TextPiece(s)] else []
  }

  /**
   * The reference reading: the trimmed text before each range, the range's
   * marker, and finally the trimmed text after the last range; nothing of a
   * range's own characters.
   */
  function Expected(content: string, ranges: seq<Emote>, from: nat): seq<Piece>
    requires WellPlaced(content, ranges, from) && from <= |content|
    decreases |ranges|
  {
    if ranges == [] then Kept(Trim(content[from..]))
    else
      var r := ranges[0];
      Kept(Trim(content[from..r.start.value])) + [EmotePiece(r.id)] + Expected(content, ranges[1..], r.end.value + 1)
  }

  lemma GapWithin(content: string, from: int, to: int)
    requires 0 <= from <= to <= |content|
    ensures Gap(content, Some(from), Some(to)) == Kept(Trim(content[from..to]))
  {
    SliceWithin(content, from, to);
  }

  /** The loop over well-placed ranges and the sentinel produces the reference reading. */
  lemma {:induction false} SegmentWellPlaced(content: string, ranges: seq<Emote>, from: nat)
    requires WellPlaced(content, ranges, from) && from <= |content|
    ensures Segment(content, ranges + [Sentinel(content)], Some(from)) == Expected(content, ranges, from)
    decreases |ranges|
  {
    var list := ranges + [Sentinel(content)];
    if ranges == [] {
      assert list == [Sentinel(content)];
      assert list[1..] == [];
      GapWithin(content, from, |content|);
      assert Expected(content, ranges, from) == Kept(Trim(content[from..]));
      assert content[from..] == content[from..|content|];
      assert Segment(content, list, Some(from)) == Gap(content, Some(from), Some(|content|)) + [];
    } else {
      var r := ranges[0];
      var next := r.end.value + 1;
      SegmentWellPlaced(content, ranges[1..], next);
      assert list[0] == r;
      assert list[1..] == ranges[1..] + [Sentinel(content)];
      GapWithin(content, from, r.start.value);
      assert Minus(r.end, -1) == Some(next);
      assert Segment(content, list, Some(from))
          == Gap(content, Some(from), r.start) + [EmotePiece(r.id)] + Segment(content, list[1..], Some(next));
    }
  }

  // ---------------------------------------------------------------------
  // formatChat

  /** Where the content starts after a reply's leading `@name `: just past its first space. */
  function ReplyOffset(content: string): int {
    IndexOf(content, ' ', 0) + 1
  }

  /** The text parts and markers of content with an `emotes` tag, or `None` when the tag is malformed. */
  function EmoteParts(content: string, emotes: string, offset: int): Option<seq<string>> {
    var list := ParseEmotes(Split(emotes, '/'), offset);
    if list.None? then None
    else Some(Render(Segment(content, SortByStart(list.value) + [Sentinel(content)], Some(0))))
  }

  /** `formatChat(format, ircmsg)` on a fresh `format`; `None` when it throws. */
  function Format(msg: Message): Option<ChatEntry> {
    if msg.tags.None? then None
    else
      var tags := msg.tags.value;
      var dn := Lookup(tags, "display-name");
      if !Truthy(dn) && msg.source.None? then None
      else
        var name := if Truthy(dn) then Some(dn.text) else msg.source.value.nick;
        var id := if Truthy(Lookup(tags, "id")) then Some(Lookup(tags, "id").text) else None;
        ChatColor.AccentIndexInPalette(Lookup(tags, "color"), name);
        var color := ChatColor.Palette[ChatColor.AccentIndex(Lookup(tags, "color"), name)];
        var rn := Lookup(tags, "reply-parent-display-name");
        var rc := Lookup(tags, "reply-parent-msg-body");
        var isReply := Truthy(rn) && Truthy(rc);
        if isReply && msg.params.None? then None
        else
          var offset := if isReply then ReplyOffset(msg.params.value) else 0;
          var content := if isReply then Some(SliceFrom(msg.params.value, offset)) else msg.params;
          var host := if isReply then Some(rn.text) else None;
          var reply := if isReply then Some(UnescapeSpaces(rc.text)) else None;
          var base := ChatEntry(name, id, color, host, reply, None, NoContent, None, false);
          FormatContent(base, content, Lookup(tags, "emotes"), offset)
  }

  /** The command check and the emote handling, on content that may be missing. */
  function FormatContent(base: ChatEntry, content: Option<string>, emotes: TagValue, offset: int): Option<ChatEntry> {
    if content.None? then None
    else
      var c := content.value;
      if CharAt(c, 0) == Some('!') then
        var (command, rest) := ExtractCommand(c);
        Some(base.(command := Some(command), content := Plain(rest)))
      else if !Truthy(emotes) then Some(base.(content := Plain(c)))
      else
        var parts := EmoteParts(c, emotes.text, offset);
        if parts.None? then None else Some(base.(content := Parts(parts.value)))
  }

  /** Removing a reply's `@name ` mention: the offset is its length plus one, the rest is what follows. */
  lemma {:induction false} ReplyOffsetMention(mention: string, rest: string)
    requires ' ' !in mention
    ensures ReplyOffset(mention + " " + rest) == |mention| + 1
    ensures SliceFrom(mention + " " + rest, ReplyOffset(mention + " " + rest)) == rest
  {
    var p := mention + " " + rest;
    forall j | 0 <= j < |mention| ensures p[j] != ' ' {
      assert p[j] == mention[j];
    }
    assert p[|mention|] == ' ';
    IndexOfAt(p, ' ', 0, |mention|);
    assert p[|mention| + 1..] == rest;
  }

  /** A reply gets the parent's name as host and its body with escaped spaces restored as reply. */
  lemma ReplyFields(msg: Message)
    requires msg.tags.Some?
    requires Truthy(Lookup(msg.tags.value, "reply-parent-display-name"))
    requires Truthy(Lookup(msg.tags.value, "reply-parent-msg-body"))
    ensures Format(msg).Some? ==> Format(msg).value.host == Some(Lookup(msg.tags.value, "reply-parent-display-name").text)
    ensures Format(msg).Some? ==> Format(msg).value.reply == Some(UnescapeSpaces(Lookup(msg.tags.value, "reply-parent-msg-body").text))
  {
  }

  /** Without both reply tags, host and reply stay unset and the content is the whole parameter text. */
  lemma NotReplyFields(msg: Message)
    requires msg.tags.Some?
    requires !Truthy(Lookup(msg.tags.value, "reply-parent-display-name")) || !Truthy(Lookup(msg.tags.value, "reply-parent-msg-body"))
    ensures Format(msg).Some? ==> Format(msg).value.host.None? && Format(msg).value.reply.None?
  {
  }

  /** A `!command` message keeps its text as a plain string, whatever the emotes tag says. */
  lemma {:induction false} CommandContent(base: ChatEntry, token: string, rest: string, emotes: TagValue, offset: int)
    requires token != "" && ' ' !in token
    ensures FormatContent(base, Some("!" + token + " " + rest), emotes, offset)
         == Some(base.(command := Some(ToUpper(token)), content := Plain(Trim(rest))))
  {
    ExtractCommandSpaced(token, rest);
    var c := "!" + token + " " + rest;
    assert CharAt(c, 0) == Some('!');
  }

  /** A lone `!` gives the empty command, which the dispatcher reads as no command at all. */
  lemma BareBangContent(base: ChatEntry, emotes: TagValue, offset: int)
    ensures FormatContent(base, Some("!"), emotes, offset) == Some(base.(command := Some(""), content := Plain("")))
  {
    ExtractCommandBare("");
    assert "!" + "" == "!";
  }

  /** Without an emotes tag (missing, null or empty), content that is not a command stays the plain string. */
  lemma PlainContent(base: ChatEntry, c: string, emotes: TagValue, offset: int)
    requires CharAt(c, 0) != Some('!') && !Truthy(emotes)
    ensures FormatContent(base, Some(c), emotes, offset) == Some(base.(content := Plain(c)))
  {
  }

  /**
   * With an emotes tag, Twitch's well-placed ranges give the reference
   * reading: trimmed gaps and markers, in order.
   */
  lemma EmoteContent(base: ChatEntry, c: string, emotes: string, offset: int, list: seq<Emote>)
    requires CharAt(c, 0) != Some('!') && emotes != ""
    requires ParseEmotes(Split(emotes, '/'), offset) == Some(list)
    requires WellPlaced(c, SortByStart(list), 0)
    ensures FormatContent(base, Some(c), Text(emotes), offset)
         == Some(base.(content := Parts(Render(Expected(c, SortByStart(list), 0)))))
  {
    SegmentWellPlaced(c, SortByStart(list), 0);
  }

  // ---------------------------------------------------------------------
  // The loops of formatChat

  /** `Some(acc + r)`, or `None` when the rest failed. */
  function Prefixed(acc: seq<Emote>, r: Option<seq<Emote>>): Option<seq<Emote>> {
    if r.None? then None else Some(acc + r.value)
  }

  lemma PrefixedAssoc(a: seq<Emote>, b: seq<Emote>, r: Option<seq<Emote>>)
    ensures Prefixed(a, Prefixed(b, r)) == Prefixed(a + b, r)
  {
    if r.Some? {
      assert a + (b + r.value) == (a + b) + r.value;
    }
  }

  lemma ParseEmotesStep(groups: seq<string>, i: nat, offset: int)
    requires i < |groups|
    ensures var d := Split(groups[i], ':');
      ParseEmotes(groups[i..], offset) == if |d| < 2 then None else Prefixed(Occurrences(d[0], Split(d[1], ','), offset), ParseEmotes(groups[i + 1..], offset))
  {
    assert groups[i..][0] == groups[i];
    assert groups[i..][1..] == groups[i + 1..];
  }

  lemma OccurrencesStep(id: string, occ: seq<string>, j: nat, offset: int)
    requires j < |occ|
    ensures Occurrences(id, occ[..j + 1], offset) == Occurrences(id, occ[..j], offset) + [Occurrence(id, occ[j], offset)]
  {
    var a := Occurrences(id, occ[..j + 1], offset);
    var b := Occurrences(id, occ[..j], offset) + [Occurrence(id, occ[j], offset)];
    forall k | 0 <= k < |a| ensures a[k] == b[k] {
      assert occ[..j + 1][k] == occ[k];
      if k < j {
        assert occ[..j][k] == occ[k];
      }
    }
  }

  /** The inner `forEach`: push one emote's occurrences. */
  method PushOccurrences(acc: seq<Emote>, id: string, occ: seq<string>, offset: int) returns (pushed: seq<Emote>)
    ensures pushed == acc + Occurrences(id, occ, offset)
  {
    pushed := acc;
    var j := 0;
    while j < |occ|
      invariant 0 <= j <= |occ|
      invariant pushed == acc + Occurrences(id, occ[..j], offset)
    {
      OccurrencesStep(id, occ, j, offset);
      pushed := pushed + [Occurrence(id, occ[j], offset)];
      j := j + 1;
    }
    assert occ[..j] == occ;
  }

  /** The nested `forEach` over the emotes tag, pushing every occurrence into the list. */
  method CollectEmotes(groups: seq<string>, offset: int) returns (list: Option<seq<Emote>>)
    ensures list == ParseEmotes(groups, offset)
  {
    var acc: seq<Emote> := [];
    var i := 0;
    assert groups[0..] == groups;
    assert Prefixed(acc, ParseEmotes(groups, offset)) == ParseEmotes(groups, offset) by {
      if ParseEmotes(groups, offset).Some? {
        assert acc + ParseEmotes(groups, offset).value == ParseEmotes(groups, offset).value;
      }
    }
    while i < |groups|
      invariant 0 <= i <= |groups|
      invariant ParseEmotes(groups, offset) == Prefixed(acc, ParseEmotes(groups[i..], offset))
    {
      ParseEmotesStep(groups, i, offset);
      var emotedata := Split(groups[i], ':');
      if |emotedata| < 2 {
        assert ParseEmotes(groups[i..], offset) == None;
        return None;
      }
      var emoteoccr := Split(emotedata[1], ',');
      ghost var before := acc;
      acc := PushOccurrences(acc, emotedata[0], emoteoccr, offset);
      assert ParseEmotes(groups[i..], offset) == Prefixed(Occurrences(emotedata[0], emoteoccr, offset), ParseEmotes(groups[i + 1..], offset));
      PrefixedAssoc(before, Occurrences(emotedata[0], emoteoccr, offset), ParseEmotes(groups[i + 1..], offset));
      i := i + 1;
    }
    assert groups[i..] == [];
    assert ParseEmotes(groups[i..], offset) == Some([]);
    assert acc + [] == acc;
    list := Some(acc);
  }

  /** What one pass of the loop pushes for an emote, and where it leaves the cursor. */
  function Step(content: string, e: Emote, idx: Option<int>): (seq<string>, Option<int>) {
    var sub := Trim(Slice(content, Pos(idx), Pos(e.start)));
    var text := if |sub| > 0 then [sub] else [];
    if e.end.Some? && e.end.value < 0 then (text, idx)
    else (text + ["\\!" + e.id], Minus(e.end, -1))
  }

  /** The strings the loop still has to push from the `i`-th emote on. */
  function Remaining(content: string, list: seq<Emote>, i: nat, idx: Option<int>): seq<string>
    requires i <= |list|
  {
    Render(Segment(content, list[i..], idx))
  }

  lemma SegmentStep(content: string, list: seq<Emote>, i: nat, idx: Option<int>)
    requires i < |list|
    ensures Remaining(content, list, i, idx)
         == Step(content, list[i], idx).0 + Remaining(content, list, i + 1, Step(content, list[i], idx).1)
  {
    var e := list[i];
    assert list[i..][0] == e;
    assert list[i..][1..] == list[i + 1..];
    var gap := Gap(content, idx, e.start);
    if e.end.Some? && e.end.value < 0 {
      RenderAppend(gap, Segment(content, list[i + 1..], idx));
    } else {
      RenderAppend(gap + [EmotePiece(e.id)], Segment(content, list[i + 1..], Minus(e.end, -1)));
      RenderAppend(gap, [EmotePiece(e.id)]);
    }
  }

  lemma PushedRegroup(a: seq<string>, b: seq<string>, c: seq<string>)
    ensures a + (b + c) == (a + b) + c
  {
  }

  lemma RemainingEnds(content: string, list: seq<Emote>, idx: Option<int>)
    ensures Remaining(content, list, 0, idx) == Render(Segment(content, list, idx))
    ensures Remaining(content, list, |list|, idx) == []
  {
    assert list[0..] == list;
    assert list[|list|..] == [];
  }

  /** One pass of the loop over the sorted list. */
  method PushEmote(content: string, e: Emote, idx: Option<int>, parts: seq<string>) returns (pushed: seq<string>, next: Option<int>)
    ensures pushed == parts + Step(content, e, idx).0 && next == Step(content, e, idx).1
  {
    pushed, next := parts, idx;
    var sub := Trim(Slice(content, Pos(idx), Pos(e.start)));
    if |sub| > 0 {
      pushed := pushed + [sub];
    }
    if !(e.end.Some? && e.end.value < 0) {
      pushed := pushed + ["\\!" + e.id];
      next := Minus(e.end, -1);
    }
  }

  /** The `forEach` over the sorted list: push each trimmed gap, then each marker, moving the cursor. */
  method SegmentContent(content: string, list: seq<Emote>) returns (parts: seq<string>)
    ensures parts == Render(Segment(content, list, Some(0)))
  {
    var idx: Option<int> := Some(0);
    parts := [];
    var i := 0;
    RemainingEnds(content, list, idx);
    ghost var whole := Remaining(content, list, 0, idx);
    assert parts + whole == whole;
    while i < |list|
      invariant 0 <= i <= |list|
      invariant whole == parts + Remaining(content, list, i, idx)
    {
      SegmentStep(content, list, i, idx);
      ghost var step := Step(content, list[i], idx);
      ghost var before := parts;
      parts, idx := PushEmote(content, list[i], idx, parts);
      ghost var later := Remaining(content, list, i + 1, idx);
      assert whole == before + (step.0 + later);
      PushedRegroup(before, step.0, later);
      i := i + 1;
    }
    RemainingEnds(content, list, idx);
  }

  /** `formatChat`, filling a fresh entry step by step. */
  method FormatChat(msg: Message) returns (entry: Option<ChatEntry>)
    ensures entry == Format(msg)
  {
    if msg.tags.None? {
      return None;
    }
    var tags := msg.tags.value;
    var dn := Lookup(tags, "display-name");
    if !Truthy(dn) && msg.source.None? {
      return None;
    }
    var name := if Truthy(dn) then Some(dn.text) else msg.source.value.nick;
    var id := if Truthy(Lookup(tags, "id")) then Some(Lookup(tags, "id").text) else None;
    var hue := ChatColor.GetColorHue(ChatColor.ColorInput(Lookup(tags, "color"), name));
    ChatColor.AccentIndexInPalette(Lookup(tags, "color"), name);
    var color := ChatColor.Palette[ChatColor.PaletteIndex(hue)];
    var rn := Lookup(tags, "reply-parent-display-name");
    var rc := Lookup(tags, "reply-parent-msg-body");
    var content := msg.params;
    var offset := 0;
    var host: Option<string> := None;
    var reply: Option<string> := None;
    if Truthy(rn) && Truthy(rc) {
      host := Some(rn.text);
      reply := Some(UnescapeSpaces(rc.text));
      if content.None? {
        return None;
      }
      offset := IndexOf(content.value, ' ', 0) + 1;
      content := Some(SliceFrom(content.value, offset));
    }
    var base := ChatEntry(name, id, color, host, reply, None, NoContent, None, false);
    entry := FillContent(base, content, Lookup(tags, "emotes"), offset);
  }

  /** The command check and the emote loops of `formatChat`. */
  method FillContent(base: ChatEntry, content: Option<string>, emotes: TagValue, offset: int) returns (entry: Option<ChatEntry>)
    ensures entry == FormatContent(base, content, emotes, offset)
  {
    if content.None? {
      return None;
    }
    var c := content.value;
    if CharAt(c, 0) == Some('!') {
      var end := IndexOf(c, ' ', 0);
      if end < 1 {
        end := |c|;
      }
      return Some(base.(command := Some(ToUpper(Slice(c, 1, end))), content := Plain(Trim(Slice(c, end + 1, |c|)))));
    }
    if !Truthy(emotes) {
      return Some(base.(content := Plain(c)));
    }
    var list := CollectEmotes(Split(emotes.text, '/'), offset);
    if list.None? {
      return None;
    }
    var sorted := SortByStart(list.value) + [Sentinel(c)];
    var parts := SegmentContent(c, sorted);
    entry := Some(base.(content := Parts(parts)));
  }
}
