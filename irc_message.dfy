/**
 * The IRC message-line parser of the overlay (`parseMessage`): the line
 * format of section 2.3.1 of RFC 1459 with a leading IRCv3 tag block in
 * Twitch's dialect,
 *
 *   [@k1=v1;k2=v2 ][:nick!host ]TYPE [CHANNEL [ACK]][ :params]
 *
 * The parser never fails: it moves a cursor over the line with `indexOf`
 * and `slice`, and a malformed line yields a partial record.
 */
module IrcMessage {
  import opened Wrappers
  import opened JsString

  /** A tag's value: a string, `null` (written `k=`), or `undefined` (no `=` at all). */
  datatype TagValue = Text(text: string) | Null | Undefined

  type Tags = map<string, TagValue>

  /** Message source: `nick!host`, or just `host`. */
  datatype Source = Source(nick: Option<string>, host: Option<string>)

  /** Command block: its first word is the type, then optional channel and acknowledgement. */
  datatype Command = Command(kind: string, channel: Option<string>, ack: Option<string>)

  /** The parsed record; absent parts are `None`. */
  datatype Message = Message(tags: Option<Tags>, source: Option<Source>, command: Command, params: Option<string>)

  /** The key of one `key=value` piece of the tag block. */
  function TagKey(piece: string): string {
    Split(piece, '=')[0]
  }

  /** The value of one tag piece: the text after the first `=`, up to a second `=`. */
  function TagValueOf(piece: string): TagValue {
    var kv := Split(piece, '=');
    if |kv| < 2 then Undefined else if kv[1] == "" then Null else Text(kv[1])
  }

  /** The tag dictionary the pieces build, each piece assigned in turn (a later key overwrites). */
  function TagMap(pieces: seq<string>): Tags {
    if pieces == [] then map[]
    else
      var last := pieces[|pieces| - 1];
      TagMap(pieces[..|pieces| - 1])[TagKey(last) := TagValueOf(last)]
  }

  /** Tag block: present when the line starts with `@`; it runs to the first space. Gives the new cursor. */
  function TagBlock(data: string): (Option<Tags>, int) {
    if CharAt(data, 0) == Some('@') then
      var end := IndexOf(data, ' ', 0);
      (Some(TagMap(Split(Slice(data, 1, end), ';'))), end + 1)
    else (None, 0)
  }

  /** `nick!host` when the source splits on `!` into exactly two parts, else only a host. */
  function SourceOf(parts: seq<string>): Source
    requires |parts| >= 1
  {
    if |parts| == 2 then Source(Some(parts[0]), Some(parts[1])) else Source(None, Some(parts[0]))
  }

  /** Source block: present when the cursor sits on `:`; it runs to the next space. */
  function SourceBlock(data: string, idx: int): (Option<Source>, int) {
    if CharAt(data, idx) == Some(':') then
      var end := IndexOf(data, ' ', idx + 1);
      (Some(SourceOf(Split(Slice(data, idx + 1, end), '!'))), end + 1)
    else (None, idx)
  }

  function CommandOf(words: seq<string>): Command
    requires |words| >= 1
  {
    Command(words[0],
            if |words| > 1 then Some(words[1]) else None,
            if |words| > 2 then Some(words[2]) else None)
  }

  /** Command block: from the cursor to the next `:` (or the end), trimmed and split on spaces. */
  function CommandBlock(data: string, idx: int): (Command, int) {
    var colon := IndexOf(data, ':', idx);
    var end := if colon == -1 then |data| else colon;
    (CommandOf(Split(Trim(Slice(data, idx, end)), ' ')), end + 1)
  }

  /** Parameters: whatever follows the cursor, trimmed; absent when the cursor is at or past the end. */
  function ParamsBlock(data: string, idx: int): Option<string> {
    if idx < |data| then Some(Trim(SliceFrom(data, idx))) else None
  }

  /** The record `parseMessage` builds for a line. */
  function Parse(data: string): Message {
    var (tags, i1) := TagBlock(data);
    var (source, i2) := SourceBlock(data, i1);
    var (command, i3) := CommandBlock(data, i2);
    Message(tags, source, command, ParamsBlock(data, i3))
  }

  /**
   * `parseMessage`: walks the cursor `idx` (and `end`) through the tag,
   * source and command blocks, then takes the rest as parameters.
   */
  method ParseMessage(data: string) returns (m: Message)
    ensures m == Parse(data)
  {
    var tags, idx := ReadTags(data);
    var source;
    source, idx := ReadSource(data, idx);
    var command;
    command, idx := ReadCommand(data, idx);
    var params: Option<string> := None;
    if idx < |data| {
      params := Some(Trim(SliceFrom(data, idx)));
    }
    m := Message(tags, source, command, params);
  }

  /** The tag block of `parseMessage`: each `;`-piece is split on `=` and stored in turn. */
  method ReadTags(data: string) returns (tags: Option<Tags>, idx: int)
    ensures (tags, idx) == TagBlock(data)
  {
    idx := 0;
    tags := None;
    if CharAt(data, idx) == Some('@') {
      var end := IndexOf(data, ' ', 0);
      var tagsarr := Split(Slice(data, 1, end), ';');
      idx := end + 1;
      var t: Tags := map[];
      var i := 0;
      while i < |tagsarr|
        invariant 0 <= i <= |tagsarr|
        invariant t == TagMap(tagsarr[..i])
      {
        var tag := Split(tagsarr[i], '=');
        t := t[tag[0] := if |tag| < 2 then Undefined else if tag[1] == "" then Null else Text(tag[1])];
        assert tagsarr[..i + 1][..i] == tagsarr[..i];
        i := i + 1;
      }
      assert tagsarr[..i] == tagsarr;
      tags := Some(t);
    }
  }

  /** The source block of `parseMessage`, read from cursor `start`. */
  method ReadSource(data: string, start: int) returns (source: Option<Source>, idx: int)
    ensures (source, idx) == SourceBlock(data, start)
  {
    idx := start;
    source := None;
    if CharAt(data, idx) == Some(':') {
      idx := idx + 1;
      var end := IndexOf(data, ' ', idx);
      var sourcearr := Split(Slice(data, idx, end), '!');
      idx := end + 1;
      if |sourcearr| == 2 {
        source := Some(Source(Some(sourcearr[0]), Some(sourcearr[1])));
      } else {
        source := Some(Source(None, Some(sourcearr[0])));
      }
    }
  }

  /** The command block of `parseMessage`, read from cursor `start`. */
  method ReadCommand(data: string, start: int) returns (command: Command, idx: int)
    ensures (command, idx) == CommandBlock(data, start)
  {
    var end := IndexOf(data, ':', start);
    if end == -1 {
      end := |data|;
    }
    var commandarr := Split(Trim(Slice(data, start, end)), ' ');
    idx := end + 1;
    command := Command(commandarr[0],
                       if |commandarr| > 1 then Some(commandarr[1]) else None,
                       if |commandarr| > 2 then Some(commandarr[2]) else None);
  }

  // ---------------------------------------------------------------------
  // The tag dictionary

  /** A key is present exactly when some piece names it. */
  lemma {:induction false} TagMapKeys(pieces: seq<string>, k: string)
    ensures k in TagMap(pieces) <==> exists i :: 0 <= i < |pieces| && TagKey(pieces[i]) == k
    decreases |pieces|
  {
    if pieces != [] {
      var init := pieces[..|pieces| - 1];
      TagMapKeys(init, k);
      if k in TagMap(pieces) && TagKey(pieces[|pieces| - 1]) != k {
        var i :| 0 <= i < |init| && TagKey(init[i]) == k;
        assert pieces[i] == init[i];
      }
      if exists i :: 0 <= i < |pieces| && TagKey(pieces[i]) == k {
        var i :| 0 <= i < |pieces| && TagKey(pieces[i]) == k;
        if i < |init| {
          assert init[i] == pieces[i];
        }
      }
    }
  }

  /** A repeated key keeps the value of its last piece. */
  lemma {:induction false} TagMapLastWins(pieces: seq<string>, i: nat)
    requires i < |pieces|
    requires forall j :: i < j < |pieces| ==> TagKey(pieces[j]) != TagKey(pieces[i])
    ensures TagKey(pieces[i]) in TagMap(pieces)
    ensures TagMap(pieces)[TagKey(pieces[i])] == TagValueOf(pieces[i])
    decreases |pieces|
  {
    if i < |pieces| - 1 {
      var init := pieces[..|pieces| - 1];
      assert init[i] == pieces[i];
      forall j | i < j < |init| ensures TagKey(init[j]) != TagKey(init[i]) {
        assert init[j] == pieces[j];
      }
      TagMapLastWins(init, i);
    }
  }

  /** `k=` stores null, `k=v` stores v, and a bare `k` stores undefined: three distinct values. */
  lemma TagValueForms(k: string, v: string)
    requires '=' !in k && '=' !in v && v != ""
    ensures TagKey(k + "=") == k && TagValueOf(k + "=") == Null
    ensures TagKey(k + "=" + v) == k && TagValueOf(k + "=" + v) == Text(v)
    ensures TagKey(k) == k && TagValueOf(k) == Undefined
  {
    assert k + "=" == k + ['='] + "";
    assert k + "=" + v == k + ['='] + v;
    SplitAt(k, "", '=');
    SplitNoSep("", '=');
    SplitAt(k, v, '=');
    SplitNoSep(v, '=');
    SplitNoSep(k, '=');
  }

  // ---------------------------------------------------------------------
  // Grammar round trip: a well-formed line parses into its parts

  /** The parts of a well-formed line, before they are joined into text. */
  datatype Frame = Frame(tags: Option<string>, source: Option<string>, words: seq<string>, params: Option<string>)

  predicate IsWord(w: string) {
    w != "" && ':' !in w && forall k :: 0 <= k < |w| ==> !IsSpace(w[k])
  }

  predicate WellFormed(f: Frame) {
    && (f.tags.Some? ==> ' ' !in f.tags.value)
    && (f.source.Some? ==> ' ' !in f.source.value)
    && |f.words| >= 1
    && (forall i :: 0 <= i < |f.words| ==> IsWord(f.words[i]))
    && (f.tags.None? && f.source.None? ==> f.words[0][0] != '@')
    && (f.params.Some? ==> f.params.value != "" && Trim(f.params.value) == f.params.value)
  }

  function TagText(f: Frame): string {
    if f.tags.Some? then ['@'] + f.tags.value + [' '] else ""
  }

  function SourceText(f: Frame): string {
    if f.source.Some? then [':'] + f.source.value + [' '] else ""
  }

  function ParamsText(f: Frame): string {
    if f.params.Some? then [' ', ':'] + f.params.value else ""
  }

  /** The line a frame is sent as. */
  function FrameText(f: Frame): string {
    TagText(f) + (SourceText(f) + (Join(f.words, ' ') + ParamsText(f)))
  }

  /** What the parts of a frame mean, as the parser should report them. */
  function Meaning(f: Frame): Message
    requires |f.words| >= 1
  {
    Message(if f.tags.Some? then Some(TagMap(Split(f.tags.value, ';'))) else None,
            if f.source.Some? then Some(SourceOf(Split(f.source.value, '!'))) else None,
            CommandOf(f.words),
            f.params)
  }

  /** The words joined by single spaces hold no colon and no white space at either end. */
  lemma {:induction false} JoinWords(words: seq<string>)
    requires |words| >= 1 && forall i :: 0 <= i < |words| ==> IsWord(words[i])
    ensures ':' !in Join(words, ' ')
    ensures |words[0]| > 0 && |Join(words, ' ')| > 0 && Join(words, ' ')[0] == words[0][0]
    ensures !IsSpace(Join(words, ' ')[|Join(words, ' ')| - 1])
    decreases |words|
  {
    if |words| > 1 {
      JoinWords(words[1..]);
    }
  }

  /** Trimming a word sequence with one trailing blank gives the sequence back. */
  lemma TrimWithBlank(s: string)
    requires |s| > 0 && !IsSpace(s[0]) && !IsSpace(s[|s| - 1])
    ensures Trim(s + " ") == s && Trim(s) == s
  {
    assert TrimStart(s + " ") == s + " ";
    assert (s + " ")[..|s|] == s;
    assert TrimEnd(s + " ") == TrimEnd(s);
  }

  /** Where the tag block of `@tv rest` ends, and what it holds. */
  lemma TagBounds(tv: string, rest: string)
    requires ' ' !in tv
    ensures IndexOf(['@'] + tv + [' '] + rest, ' ', 0) == |tv| + 1
    ensures Slice(['@'] + tv + [' '] + rest, 1, |tv| + 1) == tv
  {
    var data := ['@'] + tv + [' '] + rest;
    var x := ['@'] + tv;
    Regroup(x, [' '], rest);
    forall j | 0 <= j < |x| ensures x[j] != ' ' {
      if j > 0 {
        assert x[j] == tv[j - 1];
      }
    }
    IndexOfAppend(x, [' '] + rest, ' ', 0);
    assert data[1..|tv| + 1] == tv;
  }

  /** The characters of `pre :sv rest` after the colon: no space until the one that follows `sv`. */
  lemma SourceChars(pre: string, sv: string, rest: string)
    requires ' ' !in sv
    ensures forall j :: |pre| + 1 <= j < |pre| + |sv| + 1 ==> (pre + ([':'] + sv + [' '] + rest))[j] != ' '
    ensures (pre + ([':'] + sv + [' '] + rest))[|pre| + |sv| + 1] == ' '
  {
    var data := pre + ([':'] + sv + [' '] + rest);
    forall j | |pre| + 1 <= j < |pre| + |sv| + 1 ensures data[j] != ' ' {
      assert data[j] == sv[j - |pre| - 1];
    }
  }

  /** Where the source block of `pre :sv rest` ends. */
  lemma SourceEnd(pre: string, sv: string, rest: string)
    requires ' ' !in sv
    ensures IndexOf(pre + ([':'] + sv + [' '] + rest), ' ', |pre| + 1) == |pre| + |sv| + 1
  {
    SourceChars(pre, sv, rest);
    IndexOfAt(pre + ([':'] + sv + [' '] + rest), ' ', |pre| + 1, |pre| + |sv| + 1);
  }

  /** The source block of `pre :sv rest` opens with a colon and holds `sv`. */
  lemma SourceHolds(pre: string, sv: string, rest: string)
    ensures CharAt(pre + ([':'] + sv + [' '] + rest), |pre|) == Some(':')
    ensures Slice(pre + ([':'] + sv + [' '] + rest), |pre| + 1, |pre| + |sv| + 1) == sv
  {
    var y := [':'] + sv + [' '] + rest;
    assert (pre + y)[|pre| + 1..|pre| + |sv| + 1] == y[1..|sv| + 1];
    assert y[1..|sv| + 1] == sv;
  }

  /** The characters of `pre c :pv` from `c` on: no colon until the one after `c` and a blank. */
  lemma CommandChars(pre: string, c: string, pv: string)
    requires ':' !in c
    ensures forall j :: |pre| <= j < |pre| + |c| + 1 ==> (pre + (c + ([' ', ':'] + pv)))[j] != ':'
    ensures (pre + (c + ([' ', ':'] + pv)))[|pre| + |c| + 1] == ':'
  {
    var data := pre + (c + ([' ', ':'] + pv));
    forall j | |pre| <= j < |pre| + |c| + 1 ensures data[j] != ':' {
      if j < |pre| + |c| {
        assert data[j] == c[j - |pre|];
      }
    }
  }

  /** Where the command block of `pre c :pv` ends. */
  lemma CommandEnd(pre: string, c: string, pv: string)
    requires ':' !in c
    ensures IndexOf(pre + (c + ([' ', ':'] + pv)), ':', |pre|) == |pre| + |c| + 1
  {
    CommandChars(pre, c, pv);
    IndexOfAt(pre + (c + ([' ', ':'] + pv)), ':', |pre|, |pre| + |c| + 1);
  }

  /** The command text of `pre c :pv` and what follows its colon. */
  lemma CommandHolds(pre: string, c: string, pv: string)
    ensures Slice(pre + (c + ([' ', ':'] + pv)), |pre|, |pre| + |c| + 1) == c + [' ']
    ensures SliceFrom(pre + (c + ([' ', ':'] + pv)), |pre| + |c| + 2) == pv
  {
    var x := c + ([' ', ':'] + pv);
    assert (pre + x)[|pre|..|pre| + |c| + 1] == x[..|c| + 1];
    assert x[..|c| + 1] == c + [' '];
    assert (pre + x)[|pre| + |c| + 2..] == x[|c| + 2..];
    assert x[|c| + 2..] == pv;
  }

  /** The command block of `pre c` with no colon runs to the end. */
  lemma CommandBoundsBare(pre: string, c: string)
    requires ':' !in c
    ensures IndexOf(pre + c, ':', |pre|) == -1
    ensures Slice(pre + c, |pre|, |pre + c|) == c
  {
    IndexOfAppend(c, "", ':', 0);
    assert c + "" == c;
    IndexOfShift(pre, c, ':', 0);
    assert (pre + c)[|pre|..] == c;
  }

  /** The words joined by spaces: no colon, no white space at either end, and they split back. */
  lemma WordsLine(words: seq<string>)
    requires |words| >= 1 && forall i :: 0 <= i < |words| ==> IsWord(words[i])
    ensures ':' !in Join(words, ' ')
    ensures |Join(words, ' ')| > 0 && !IsSpace(Join(words, ' ')[0])
    ensures !IsSpace(Join(words, ' ')[|Join(words, ' ')| - 1])
    ensures Split(Join(words, ' '), ' ') == words
  {
    JoinWords(words);
    assert IsWord(words[0]);
    forall i | 0 <= i < |words| ensures ' ' !in words[i] {
      assert IsWord(words[i]);
    }
    SplitJoin(words, ' ');
  }

  /** The tag block of a frame's line. */
  lemma TagStage(f: Frame)
    requires WellFormed(f)
    ensures TagBlock(FrameText(f)).0 == Meaning(f).tags
    ensures TagBlock(FrameText(f)).1 == |TagText(f)|
  {
    var rest := SourceText(f) + (Join(f.words, ' ') + ParamsText(f));
    if f.tags.Some? {
      TagBounds(f.tags.value, rest);
    } else {
      JoinWords(f.words);
      assert FrameText(f) == rest;
      assert rest[0] == (if f.source.Some? then ':' else f.words[0][0]);
    }
  }

  /** The source block of a frame's line, which starts at `a`. */
  lemma SourceStage(f: Frame, a: nat)
    requires WellFormed(f) && a == |TagText(f)|
    ensures SourceBlock(FrameText(f), a).0 == Meaning(f).source
    ensures SourceBlock(FrameText(f), a).1 == a + |SourceText(f)|
  {
    var rest := Join(f.words, ' ') + ParamsText(f);
    if f.source.Some? {
      SourceEnd(TagText(f), f.source.value, rest);
      SourceHolds(TagText(f), f.source.value, rest);
    } else {
      JoinWords(f.words);
      assert IsWord(f.words[0]);
      assert FrameText(f)[a] == f.words[0][0];
    }
  }

  /** Text that can stand as the command block: no colon, no white space at either end. */
  predicate IsCommandText(c: string) {
    |c| > 0 && !IsSpace(c[0]) && !IsSpace(c[|c| - 1]) && ':' !in c
  }

  /** The command block as the colon search and the trimmed text before it decide it. */
  lemma CommandBlockAt(data: string, b: int, e: int, t: string)
    requires e == (if IndexOf(data, ':', b) == -1 then |data| else IndexOf(data, ':', b))
    requires Trim(Slice(data, b, e)) == t
    ensures CommandBlock(data, b).0 == CommandOf(Split(t, ' '))
    ensures CommandBlock(data, b).1 == e + 1
  {
  }

  /** The parameters as the text after the cursor decides them. */
  lemma ParamsAt(data: string, k: nat, p: string)
    requires k < |data| && SliceFrom(data, k) == p && Trim(p) == p
    ensures ParamsBlock(data, k) == Some(p)
  {
  }

  /** A frame's line from the command on, regrouped around the command text. */
  lemma CommandSplit(f: Frame)
    requires WellFormed(f)
    ensures FrameText(f) == (TagText(f) + SourceText(f)) + (Join(f.words, ' ') + ParamsText(f))
    ensures IsCommandText(Join(f.words, ' '))
    ensures Split(Join(f.words, ' '), ' ') == f.words
    ensures Trim(Join(f.words, ' ') + " ") == Join(f.words, ' ') && Trim(Join(f.words, ' ')) == Join(f.words, ' ')
  {
    WordsLine(f.words);
    TrimWithBlank(Join(f.words, ' '));
    Regroup(TagText(f), SourceText(f), Join(f.words, ' ') + ParamsText(f));
  }

  /** A frame's line with parameters, regrouped around the command text and its colon. */
  lemma ParamsLine(f: Frame)
    requires WellFormed(f) && f.params.Some?
    ensures FrameText(f) == (TagText(f) + SourceText(f)) + (Join(f.words, ' ') + ([' ', ':'] + f.params.value))
  {
    CommandSplit(f);
    assert ParamsText(f) == [' ', ':'] + f.params.value;
  }

  /** In `pre c :pv`, the colon search from `c` stops after `c` and a blank. */
  lemma ColonAfter(data: string, pre: string, c: string, pv: string, b: nat, e: nat)
    requires data == pre + (c + ([' ', ':'] + pv)) && ':' !in c
    requires b == |pre| && e == b + |c| + 1
    ensures IndexOf(data, ':', b) == e && Slice(data, b, e) == c + [' ']
  {
    CommandEnd(pre, c, pv);
    CommandHolds(pre, c, pv);
  }

  /** The command block when the colon search stops at `e`, after the command text and a blank. */
  lemma CommandBeforeColon(data: string, c: string, b: nat, e: nat)
    requires IndexOf(data, ':', b) == e && Slice(data, b, e) == c + [' '] && Trim(c + " ") == c
    ensures CommandBlock(data, b).0 == CommandOf(Split(c, ' '))
    ensures CommandBlock(data, b).1 == e + 1
  {
    CommandBlockAt(data, b, e, c);
  }

  /** The command of a frame's line with parameters, which ends at the colon `e`. */
  lemma CommandStageParams(f: Frame, b: nat, e: nat)
    requires WellFormed(f) && f.params.Some? && b == |TagText(f)| + |SourceText(f)|
    requires e == b + |Join(f.words, ' ')| + 1
    ensures CommandBlock(FrameText(f), b).0 == CommandOf(f.words)
    ensures CommandBlock(FrameText(f), b).1 == e + 1
  {
    CommandSplit(f);
    ParamsLine(f);
    ColonAfter(FrameText(f), TagText(f) + SourceText(f), Join(f.words, ' '), f.params.value, b, e);
    CommandBeforeColon(FrameText(f), Join(f.words, ' '), b, e);
  }

  /** The text after the colon of `pre c :pv`. */
  lemma AfterColon(data: string, pre: string, c: string, pv: string, k: nat)
    requires data == pre + (c + ([' ', ':'] + pv)) && k == |pre| + |c| + 2
    ensures k <= |data| && SliceFrom(data, k) == pv
  {
    CommandHolds(pre, c, pv);
  }

  /** The text after the colon of a frame's line with parameters. */
  lemma ParamsRest(f: Frame, b: nat, k: nat)
    requires WellFormed(f) && f.params.Some? && b == |TagText(f)| + |SourceText(f)|
    requires k == b + |Join(f.words, ' ')| + 2
    ensures k < |FrameText(f)| && SliceFrom(FrameText(f), k) == f.params.value
  {
    ParamsLine(f);
    AfterColon(FrameText(f), TagText(f) + SourceText(f), Join(f.words, ' '), f.params.value, k);
  }

  /** The command block when no colon follows `b`: it runs to the end of the line. */
  lemma CommandWithoutColon(data: string, c: string, b: nat)
    requires IndexOf(data, ':', b) == -1 && Slice(data, b, |data|) == c && Trim(c) == c
    ensures CommandBlock(data, b).0 == CommandOf(Split(c, ' '))
    ensures CommandBlock(data, b).1 == |data| + 1
  {
    CommandBlockAt(data, b, |data|, c);
  }

  /** A frame's line without parameters ends with the command text. */
  lemma BareLine(f: Frame)
    requires WellFormed(f) && f.params.None?
    ensures FrameText(f) == (TagText(f) + SourceText(f)) + Join(f.words, ' ')
  {
    CommandSplit(f);
    assert Join(f.words, ' ') + ParamsText(f) == Join(f.words, ' ');
  }

  /** In `pre c`, with no colon in `c`, the colon search from `c` finds nothing. */
  lemma NoColonAfter(data: string, pre: string, c: string, b: nat)
    requires data == pre + c && ':' !in c && b == |pre|
    ensures IndexOf(data, ':', b) == -1 && Slice(data, b, |data|) == c
  {
    CommandBoundsBare(pre, c);
  }

  /** The command block of a frame's line without parameters runs to the end. */
  lemma CommandStageBare(f: Frame, b: nat)
    requires WellFormed(f) && f.params.None? && b == |TagText(f)| + |SourceText(f)|
    ensures CommandBlock(FrameText(f), b).0 == CommandOf(f.words)
    ensures CommandBlock(FrameText(f), b).1 == |FrameText(f)| + 1
  {
    CommandSplit(f);
    BareLine(f);
    NoColonAfter(FrameText(f), TagText(f) + SourceText(f), Join(f.words, ' '), b);
    CommandWithoutColon(FrameText(f), Join(f.words, ' '), b);
  }

  /** The parameters of a frame's line with parameters, read after the colon `e`. */
  lemma ParamsStage(f: Frame, b: nat, e: nat)
    requires WellFormed(f) && f.params.Some? && b == |TagText(f)| + |SourceText(f)|
    requires e == b + |Join(f.words, ' ')| + 1
    ensures ParamsBlock(FrameText(f), e + 1) == f.params
  {
    var data, k, p := FrameText(f), e + 1, f.params.value;
    assert k < |data| && SliceFrom(data, k) == p by {
      ParamsRest(f, b, k);
    }
    assert Trim(p) == p;
    ParamsAt(data, k, p);
  }

  /** `Parse` runs the four blocks in turn, each starting where the previous one stopped. */
  lemma ParseParts(data: string, a: int, b: int, k: int)
    requires TagBlock(data).1 == a && SourceBlock(data, a).1 == b && CommandBlock(data, b).1 == k
    ensures Parse(data).tags == TagBlock(data).0
    ensures Parse(data).source == SourceBlock(data, a).0
    ensures Parse(data).command == CommandBlock(data, b).0
    ensures Parse(data).params == ParamsBlock(data, k)
  {
  }

  /** The command stage of `Parse` on a frame's line. */
  lemma CommandOfFrame(f: Frame, b: nat)
    requires WellFormed(f) && b == |TagText(f)| + |SourceText(f)|
    ensures CommandBlock(FrameText(f), b).0 == CommandOf(f.words)
  {
    if f.params.Some? {
      CommandStageParams(f, b, b + |Join(f.words, ' ')| + 1);
    } else {
      CommandStageBare(f, b);
    }
  }

  /** Where the command block of a frame's line stops: after the colon, or past the end. */
  function ParamsStart(f: Frame): int {
    if f.params.Some? then |TagText(f)| + |SourceText(f)| + |Join(f.words, ' ')| + 2 else |FrameText(f)| + 1
  }

  /** The command block of a frame's line stops at `ParamsStart`. */
  lemma CommandEndOfFrame(f: Frame, b: nat)
    requires WellFormed(f) && b == |TagText(f)| + |SourceText(f)|
    ensures CommandBlock(FrameText(f), b).1 == ParamsStart(f)
  {
    if f.params.Some? {
      CommandStageParams(f, b, b + |Join(f.words, ' ')| + 1);
    } else {
      CommandStageBare(f, b);
    }
  }

  /** The params stage of `Parse` on a frame's line. */
  lemma ParamsOfFrame(f: Frame, b: nat, k: int)
    requires WellFormed(f) && b == |TagText(f)| + |SourceText(f)| && k == ParamsStart(f)
    ensures ParamsBlock(FrameText(f), k) == f.params
  {
    if f.params.Some? {
      ParamsStage(f, b, k - 1);
    }
  }

  /** A well-formed line parses into exactly the parts it was built from. */
  lemma ParseFrame(f: Frame)
    requires WellFormed(f)
    ensures Parse(FrameText(f)).tags == Meaning(f).tags
    ensures Parse(FrameText(f)).source == Meaning(f).source
    ensures Parse(FrameText(f)).command == Meaning(f).command
    ensures Parse(FrameText(f)).params == Meaning(f).params
  {
    var a := |TagText(f)|;
    var b := a + |SourceText(f)|;
    TagStage(f);
    SourceStage(f, a);
    var k := ParamsStart(f);
    CommandOfFrame(f, b);
    CommandEndOfFrame(f, b);
    ParamsOfFrame(f, b, k);
    ParseParts(FrameText(f), a, b, k);
  }

  // ---------------------------------------------------------------------
  // Edge cases of the cursor arithmetic

  /**
   * A tag block with no space anywhere: `indexOf` gives -1, so the tag text
   * loses its last character and the cursor falls back to 0.
   */
  lemma TagBlockWithoutSpace(t: string)
    requires t != "" && ' ' !in t
    ensures TagBlock(['@'] + t).0 == Some(TagMap(Split(t[..|t| - 1], ';')))
    ensures TagBlock(['@'] + t).1 == 0
  {
    var data := ['@'] + t;
    forall j | 0 <= j < |data| ensures data[j] != ' ' {
      if j > 0 {
        assert data[j] == t[j - 1];
      }
    }
    IndexOfMissing(data, ' ', 0);
    assert data[1..|data| - 1] == t[..|t| - 1];
  }

  /** After a tag block with no space, the source and command blocks start over at the `@`. */
  lemma ParseTagWithoutSpace(t: string)
    requires t != "" && ' ' !in t
    ensures Parse(['@'] + t).source == None
    ensures Parse(['@'] + t).command == CommandBlock(['@'] + t, 0).0
  {
    var data := ['@'] + t;
    TagBlockWithoutSpace(t);
    assert SourceBlock(data, 0) == (None, 0);
    ParseParts(data, 0, 0, CommandBlock(data, 0).1);
  }

  /** A source with two `!` is not `nick!host`: only the text before the first `!` is kept, as host. */
  lemma SourceWithTwoBangs(a: string, b: string, c: string)
    requires '!' !in a && '!' !in b && '!' !in c
    ensures SourceOf(Split(a + "!" + b + "!" + c, '!')) == Source(None, Some(a))
  {
    SplitAt(a, b + "!" + c, '!');
    SplitAt(b, c, '!');
    SplitNoSep(c, '!');
    assert a + "!" + b + "!" + c == a + ['!'] + (b + "!" + c);
  }

  /** The keep-alive line Twitch sends: `PING :tmi.twitch.tv`. */
  const PingFrame := Frame(None, None, ["PING"], Some("tmi.twitch.tv"))

  lemma PingParts()
    ensures FrameText(PingFrame) == "PING :tmi.twitch.tv"
    ensures WellFormed(PingFrame)
  {
    TrimTrimmed("tmi.twitch.tv");
  }

  /** The keep-alive line parses with no tags, no source, the server name as text. */
  lemma ParsePingExample()
    ensures Parse("PING :tmi.twitch.tv") == Message(None, None, Command("PING", None, None), Some("tmi.twitch.tv"))
  {
    PingParts();
    ParseFrame(PingFrame);
  }
}
