/**
 * `CHATLOG`: the scrollback of the overlay, a circular buffer of chat
 * entries kept in a fixed array, with a cursor and a counter of entries
 * whose generation is under way.
 *
 * The page is abstracted. Each entry object carries a `stamp` that stands
 * for its identity. The chat box is the sequence of stamps whose elements
 * are in it, in document order. An entry's `_ref` present is `shown`;
 * the reply text replaced by the removal notice is `redacted`.
 */
module ChatLog {
  import opened Wrappers
  import opened JsString
  import opened ChatFormat
  import opened Html

  datatype Slot = Slot(stamp: nat, entry: ChatEntry, shown: bool, redacted: bool)

  /** The array, the cursor, the pending counter and the chat box's children. */
  datatype LogState = LogState(slots: seq<Option<Slot>>, index: int, pending: int, display: seq<nat>)

  /** The chat box without the element of entry `stamp`. */
  function Without(display: seq<nat>, stamp: nat): (r: seq<nat>)
    ensures stamp !in r
    ensures forall x :: x in r <==> x in display && x != stamp
  {
    if display == [] then []
    else (if display[0] == stamp then [] else [display[0]]) + Without(display[1..], stamp)
  }

  /** `_remove(x)`: an entry still shown loses its element; anything else is left alone. */
  function Remove(slot: Option<Slot>, display: seq<nat>): (Option<Slot>, seq<nat>) {
    if slot.None? || !slot.value.shown then (slot, display)
    else (Some(slot.value.(shown := false)), Without(display, slot.value.stamp))
  }

  /** A buffer with a cursor inside it. */
  predicate Good(st: LogState) {
    0 <= st.index < |st.slots|
  }

  /**
   * `_insert(x)` once the chat box is known: the pending count goes down,
   * the occupant at the cursor loses its element, `x` takes its slot, the
   * cursor moves on by one around the buffer and `x`'s element is appended.
   */
  function InsertState(st: LogState, x: Slot): (r: LogState)
    requires Good(st)
    ensures Good(r) && |r.slots| == |st.slots|
  {
    var d := Remove(st.slots[st.index], st.display).1;
    LogState(st.slots[st.index := Some(x)], (st.index + 1) % |st.slots|, st.pending - 1, d + [x.stamp])
  }

  /** Successive inserts into an attached log. */
  function Run(st: LogState, xs: seq<Slot>): (r: LogState)
    requires Good(st)
    ensures Good(r) && |r.slots| == |st.slots|
    decreases |xs|
  {
    if xs == [] then st else Run(InsertState(st, xs[0]), xs[1..])
  }

  /** The slot `t` places past cursor `i` around a buffer of `n`. */
  function Ahead(i: int, t: int, n: nat): int
    requires n > 0
  {
    (i + t) % n
  }

  lemma ModSmall(z: int, n: int)
    requires n > 0 && 0 <= z < 2 * n
    ensures z % n == (if z < n then z else z - n)
  {
    if z >= n {
      assert z == 1 * n + (z - n);
    }
  }

  /** One step and then `t` more is `t + 1` steps. */
  lemma AheadStep(i: int, t: nat, n: nat)
    requires n > 0 && 0 <= i < n && t < n
    ensures Ahead((i + 1) % n, t, n) == Ahead(i, t + 1, n)
  {
    ModSmall(i + 1, n);
    ModSmall(i + 1 + t, n);
    ModSmall((i + 1) % n + t, n);
  }

  /** Fewer than `n` steps from a cursor reach distinct slots, and every slot is reached. */
  lemma AheadDistinct(i: int, a: nat, b: nat, n: nat)
    requires n > 0 && 0 <= i < n && a < b < n
    ensures Ahead(i, a, n) != Ahead(i, b, n)
  {
    ModSmall(i + a, n);
    ModSmall(i + b, n);
  }

  lemma AheadCovers(i: int, j: int, n: nat)
    requires n > 0 && 0 <= i < n && 0 <= j < n
    ensures exists t :: 0 <= t < n && j == Ahead(i, t, n)
  {
    var t := if j >= i then j - i else j - i + n;
    ModSmall(i + t, n);
    assert j == Ahead(i, t, n);
  }

  lemma AheadZero(i: int, n: nat)
    requires n > 0 && 0 <= i < n
    ensures Ahead(i, 0, n) == i && Ahead(i, n, n) == i
  {
    ModSmall(i, n);
    ModSmall(i + n, n);
  }

  /** Up to `n` inserts move the cursor on by their number, around the buffer. */
  lemma {:induction false} RunIndex(st: LogState, xs: seq<Slot>)
    requires Good(st) && |xs| <= |st.slots|
    ensures Run(st, xs).index == Ahead(st.index, |xs|, |st.slots|)
    decreases |xs|
  {
    var n := |st.slots|;
    AheadZero(st.index, n);
    if xs != [] {
      var st1 := InsertState(st, xs[0]);
      RunIndex(st1, xs[1..]);
      AheadStep(st.index, |xs| - 1, n);
    }
  }

  /** Up to `n` inserts: the `t`-th lands `t` slots past the cursor, and the other slots are unchanged. */
  lemma {:induction false} RunSlots(st: LogState, xs: seq<Slot>)
    requires Good(st) && |xs| <= |st.slots|
    ensures forall t :: 0 <= t < |xs| ==> Run(st, xs).slots[Ahead(st.index, t, |st.slots|)] == Some(xs[t])
    ensures forall j :: 0 <= j < |st.slots| && (forall t :: 0 <= t < |xs| ==> j != Ahead(st.index, t, |st.slots|)) ==>
              Run(st, xs).slots[j] == st.slots[j]
    decreases |xs|
  {
    var n := |st.slots|;
    AheadZero(st.index, n);
    if xs != [] {
      var st1 := InsertState(st, xs[0]);
      var rest := xs[1..];
      RunSlots(st1, rest);
      var r := Run(st, xs);
      assert r == Run(st1, rest);
      assert st1.index == (st.index + 1) % n;
      forall t | 0 <= t < |rest| ensures Ahead(st1.index, t, n) == Ahead(st.index, t + 1, n) {
        AheadStep(st.index, t, n);
      }
      forall t | 0 <= t < |xs| ensures r.slots[Ahead(st.index, t, n)] == Some(xs[t]) {
        if t == 0 {
          forall u | 0 <= u < |rest| ensures st.index != Ahead(st1.index, u, n) {
            AheadDistinct(st.index, 0, u + 1, n);
          }
        } else {
          assert xs[t] == rest[t - 1];
          assert Ahead(st1.index, t - 1, n) == Ahead(st.index, t, n);
        }
      }
      forall j | 0 <= j < n && (forall t :: 0 <= t < |xs| ==> j != Ahead(st.index, t, n))
        ensures r.slots[j] == st.slots[j]
      {
        assert j != Ahead(st.index, 0, n);
        forall u | 0 <= u < |rest| ensures j != Ahead(st1.index, u, n) {
          assert j != Ahead(st.index, u + 1, n);
        }
      }
    }
  }

  /** The last of `n + 1` inserts finds the cursor back at the first one's slot; every other slot holds a later entry. */
  lemma LastRound(st: LogState, front: seq<Slot>)
    requires Good(st) && |front| == |st.slots|
    ensures Run(st, front).index == st.index
    ensures Run(st, front).slots[st.index] == Some(front[0])
    ensures forall j :: 0 <= j < |st.slots| && j != st.index ==>
      exists t :: 0 < t < |st.slots| && Run(st, front).slots[j] == Some(front[t])
  {
    var n := |st.slots|;
    RunIndex(st, front);
    RunSlots(st, front);
    AheadZero(st.index, n);
    var mid := Run(st, front);
    forall j | 0 <= j < n && j != st.index ensures exists t :: 0 < t < n && mid.slots[j] == Some(front[t]) {
      AheadCovers(st.index, j, n);
      var t :| 0 <= t < n && j == Ahead(st.index, t, n);
      assert mid.slots[j] == Some(front[t]);
    }
  }

  /**
   * After one insert more than the buffer holds, the first entry is gone:
   * no slot holds it and its element has left the chat box.
   */
  lemma FirstEvicted(st: LogState, xs: seq<Slot>)
    requires Good(st) && |xs| == |st.slots| + 1
    requires forall t :: 0 < t < |xs| ==> xs[t].stamp != xs[0].stamp
    requires xs[0].shown
    ensures forall j :: 0 <= j < |Run(st, xs).slots| && Run(st, xs).slots[j].Some? ==> Run(st, xs).slots[j].value.stamp != xs[0].stamp
    ensures xs[0].stamp !in Run(st, xs).display
  {
    var n := |st.slots|;
    var front := xs[..n];
    assert xs == front + [xs[n]];
    RunAppend(st, front, xs[n]);
    LastRound(st, front);
    var mid := Run(st, front);
    var r := Run(st, xs);
    assert r == InsertState(mid, xs[n]);
    forall j | 0 <= j < n && r.slots[j].Some? ensures r.slots[j].value.stamp != xs[0].stamp {
      if j != st.index {
        var t :| 0 < t < n && mid.slots[j] == Some(front[t]);
        assert front[t] == xs[t];
      }
    }
  }

  lemma {:induction false} RunAppend(st: LogState, xs: seq<Slot>, x: Slot)
    requires Good(st)
    ensures Run(st, xs + [x]) == InsertState(Run(st, xs), x)
    decreases |xs|
  {
    if xs == [] {
      assert [x][1..] == [];
    } else {
      assert (xs + [x])[0] == xs[0];
      assert (xs + [x])[1..] == xs[1..] + [x];
      RunAppend(InsertState(st, xs[0]), xs[1..], x);
    }
  }

  // ---------------------------------------------------------------------
  // clear

  /** `clear()` over slots `i` and on: every entry still shown loses its element; the slots stay occupied. */
  function ClearFrom(slots: seq<Option<Slot>>, display: seq<nat>, i: nat): (r: (seq<Option<Slot>>, seq<nat>))
    requires i <= |slots|
    ensures |r.0| == |slots|
    decreases |slots| - i
  {
    if i == |slots| then (slots, display)
    else
      var (slot, d) := Remove(slots[i], display);
      ClearFrom(slots[i := slot], d, i + 1)
  }

  /** After `clear()`, no entry is shown and none has left its slot; the cursor is back at 0. */
  lemma {:induction false} ClearHides(slots: seq<Option<Slot>>, display: seq<nat>, i: nat)
    requires i <= |slots|
    ensures forall j :: i <= j < |slots| ==> ClearFrom(slots, display, i).0[j].None? == slots[j].None?
    ensures forall j :: i <= j < |slots| && slots[j].Some? ==>
      ClearFrom(slots, display, i).0[j] == Some(slots[j].value.(shown := false))
    ensures forall j :: 0 <= j < i ==> ClearFrom(slots, display, i).0[j] == slots[j]
    ensures forall j :: i <= j < |slots| && slots[j].Some? && slots[j].value.shown ==> slots[j].value.stamp !in ClearFrom(slots, display, i).1
    decreases |slots| - i
  {
    if i < |slots| {
      var (slot, d) := Remove(slots[i], display);
      ClearHides(slots[i := slot], d, i + 1);
      ClearKeeps(slots[i := slot], d, i + 1, if slots[i].Some? then slots[i].value.stamp else 0);
    }
  }

  /** A stamp absent from the chat box stays absent while later slots are cleared. */
  lemma {:induction false} ClearKeeps(slots: seq<Option<Slot>>, display: seq<nat>, i: nat, stamp: nat)
    requires i <= |slots|
    ensures stamp !in display ==> stamp !in ClearFrom(slots, display, i).1
    decreases |slots| - i
  {
    if i < |slots| {
      var (slot, d) := Remove(slots[i], display);
      ClearKeeps(slots[i := slot], d, i + 1, stamp);
    }
  }

  // ---------------------------------------------------------------------
  // delete

  /**
   * The barrier of `delete`: `polls[k]` is the pending count read at the
   * `k`-th poll (other work may run between polls). It answers true at the
   * first poll that reads 0 and false at the first that reads less, or when
   * the twelfth poll still reads more. The second component is the number
   * of polls made.
   */
  function Barrier(polls: seq<int>, attempts: nat): (bool, nat)
    requires attempts <= 11 && |polls| >= 12
    decreases 11 - attempts
  {
    var p := polls[attempts];
    if p == 0 then (true, attempts + 1)
    else if p < 0 || attempts > 10 then (false, attempts + 1)
    else Barrier(polls, attempts + 1)
  }

  /** The barrier makes between one and twelve polls, and answers true exactly at the first poll reading 0. */
  lemma {:induction false} BarrierBounds(polls: seq<int>, attempts: nat)
    requires attempts <= 11 && |polls| >= 12
    ensures attempts < Barrier(polls, attempts).1 <= 12
    ensures var k := Barrier(polls, attempts).1 - 1;
      && (forall j :: attempts <= j < k ==> polls[j] > 0)
      && (Barrier(polls, attempts).0 <==> polls[k] == 0)
      && (!Barrier(polls, attempts).0 ==> polls[k] < 0 || k == 11)
    decreases 11 - attempts
  {
    var p := polls[attempts];
    if p != 0 && p >= 0 && attempts <= 10 {
      BarrierBounds(polls, attempts + 1);
    }
  }

  /** With the count unchanged throughout: 0 passes at once, a negative count fails at once, a positive one after twelve polls. */
  lemma {:induction false} BarrierSteady(polls: seq<int>, p: int, attempts: nat)
    requires attempts <= 11 && |polls| >= 12 && forall k :: 0 <= k < |polls| ==> polls[k] == p
    ensures Barrier(polls, attempts) == (if p == 0 then (true, attempts + 1) else if p < 0 then (false, attempts + 1) else (false, 12))
    decreases 11 - attempts
  {
    if p > 0 && attempts <= 10 {
      BarrierSteady(polls, p, attempts + 1);
    }
  }

  /** Whether the user named (in lower case) or the id given picks the entry for removal; a missing id matches one. */
  predicate Picked(e: ChatEntry, user: string, id: Option<string>)
    requires e.name.Some?
  {
    ToLower(e.name.value) == ToLower(user) || e.id == id
  }

  /** Whether the entry replies to the user named. */
  predicate RepliesTo(e: ChatEntry, user: string) {
    e.host.Some? && e.host.value != "" && ToLower(e.host.value) == ToLower(user)
  }

  /** The element of the entry is still there and holds a reply line to overwrite. */
  predicate Redactable(x: Slot) {
    x.shown && x.entry.reply.Some? && x.entry.reply.value != ""
  }

  /** An occupied slot without a name, or a reply notice with nothing to write into, makes the scan throw. */
  predicate Throws(slot: Option<Slot>, user: string, id: Option<string>) {
    slot.Some? &&
    (slot.value.entry.name.None? ||
     (!Picked(slot.value.entry, user, id) && RepliesTo(slot.value.entry, user) && !Redactable(slot.value)))
  }

  /** The slots and chat box the scan goes on with after slot `i`, when that slot does not throw. */
  function ScanNext(slots: seq<Option<Slot>>, display: seq<nat>, i: nat, user: string, id: Option<string>): (r: (seq<Option<Slot>>, seq<nat>))
    requires i < |slots|
    ensures |r.0| == |slots|
  {
    if slots[i].None? || slots[i].value.entry.name.None? then (slots, display)
    else if Picked(slots[i].value.entry, user, id) then (slots[i := Remove(slots[i], display).0], Remove(slots[i], display).1)
    else if RepliesTo(slots[i].value.entry, user) then (slots[i := Some(slots[i].value.(redacted := true))], display)
    else (slots, display)
  }

  /**
   * The scan of `delete` from slot `i` on. A picked entry loses its
   * element; an entry replying to the user gets the removal notice. The
   * flag says that the scan threw and stopped.
   */
  function Scan(slots: seq<Option<Slot>>, display: seq<nat>, i: nat, user: string, id: Option<string>): (r: (seq<Option<Slot>>, seq<nat>, bool))
    requires i <= |slots|
    ensures |r.0| == |slots|
    decreases |slots| - i
  {
    if i == |slots| then (slots, display, false)
    else if Throws(slots[i], user, id) then (slots, display, true)
    else
      var next := ScanNext(slots, display, i, user, id);
      Scan(next.0, next.1, i + 1, user, id)
  }

  /** The scan never empties, fills or moves a slot, nor changes any entry: only its element and reply notice. */
  lemma {:induction false} ScanKeepsEntries(slots: seq<Option<Slot>>, display: seq<nat>, i: nat, user: string, id: Option<string>)
    requires i <= |slots|
    ensures forall j :: 0 <= j < |slots| ==> Scan(slots, display, i, user, id).0[j].None? == slots[j].None?
    ensures forall j :: 0 <= j < |slots| && slots[j].Some? ==>
      Scan(slots, display, i, user, id).0[j].value.entry == slots[j].value.entry &&
      Scan(slots, display, i, user, id).0[j].value.stamp == slots[j].value.stamp
    decreases |slots| - i
  {
    if i < |slots| && !Throws(slots[i], user, id) {
      var next := ScanNext(slots, display, i, user, id);
      ScanKeepsEntries(next.0, next.1, i + 1, user, id);
    }
  }

  /** The scan leaves the slots before its start alone. */
  lemma {:induction false} ScanEarlier(slots: seq<Option<Slot>>, display: seq<nat>, i: nat, user: string, id: Option<string>)
    requires i <= |slots|
    ensures forall j :: 0 <= j < i ==> Scan(slots, display, i, user, id).0[j] == slots[j]
    decreases |slots| - i
  {
    if i < |slots| && !Throws(slots[i], user, id) {
      var next := ScanNext(slots, display, i, user, id);
      ScanEarlier(next.0, next.1, i + 1, user, id);
    }
  }

  /** A scan that runs to the end meets only named entries. */
  lemma {:induction false} ScanNamed(slots: seq<Option<Slot>>, display: seq<nat>, i: nat, user: string, id: Option<string>)
    requires i <= |slots|
    requires !Scan(slots, display, i, user, id).2
    ensures forall j :: i <= j < |slots| && slots[j].Some? ==> slots[j].value.entry.name.Some?
    decreases |slots| - i
  {
    if i < |slots| {
      var next := ScanNext(slots, display, i, user, id);
      assert Scan(slots, display, i, user, id) == Scan(next.0, next.1, i + 1, user, id);
      ScanNamed(next.0, next.1, i + 1, user, id);
      assert forall j :: i < j < |slots| ==> next.0[j] == slots[j];
    }
  }

  /**
   * A scan that runs to the end hides every picked entry and marks every
   * entry replying to the user that is not picked; all others are left
   * as they were.
   */
  lemma {:induction false} ScanEffect(slots: seq<Option<Slot>>, display: seq<nat>, i: nat, user: string, id: Option<string>)
    requires i <= |slots|
    requires !Scan(slots, display, i, user, id).2
    ensures forall j :: i <= j < |slots| && slots[j].Some? && slots[j].value.entry.name.Some? ==>
      Scan(slots, display, i, user, id).0[j] ==
        if Picked(slots[j].value.entry, user, id) then Some(slots[j].value.(shown := false))
        else if RepliesTo(slots[j].value.entry, user) then Some(slots[j].value.(redacted := true))
        else slots[j]
    decreases |slots| - i
  {
    if i < |slots| {
      var next := ScanNext(slots, display, i, user, id);
      assert Scan(slots, display, i, user, id) == Scan(next.0, next.1, i + 1, user, id);
      ScanEffect(next.0, next.1, i + 1, user, id);
      ScanEarlier(next.0, next.1, i + 1, user, id);
      assert forall j :: i < j < |slots| ==> next.0[j] == slots[j];
    }
  }

  // ---------------------------------------------------------------------
  // generate: counting and classification

  datatype Kind = AlertBox | ImageBox | TextBox | ReactBox

  /** The classes `generate` gives an entry: its kind and whether its content is emotes only. */
  datatype Layout = Layout(kind: Kind, emoteOnly: bool)

  /** `chatContent`: a string is one part, `null` is none. */
  function PartsOf(c: Content): seq<string> {
    match c
    case Plain(t) => [t]
    case Parts(p) => p
    case NoContent => []
  }

  /** A part longer than two characters that starts with `\!` is an emote. */
  predicate IsEmotePart(p: string) {
    |p| > 2 && p[..2] == "\\!"
  }

  function EmoteCount(parts: seq<string>): (r: nat)
    ensures r <= |parts|
  {
    if parts == [] then 0
    else EmoteCount(parts[..|parts| - 1]) + (if IsEmotePart(parts[|parts| - 1]) then 1 else 0)
  }

  /** Every part that is not an emote is text. */
  function TextCount(parts: seq<string>): nat {
    |parts| - EmoteCount(parts)
  }

  /** No text part means every part is an emote. */
  lemma {:induction false} EmoteCountAll(parts: seq<string>)
    ensures EmoteCount(parts) == |parts| <==> forall k :: 0 <= k < |parts| ==> IsEmotePart(parts[k])
    decreases |parts|
  {
    if parts != [] {
      var init := parts[..|parts| - 1];
      EmoteCountAll(init);
      assert forall k :: 0 <= k < |init| ==> init[k] == parts[k];
    }
  }

  function Classify(e: ChatEntry): Layout {
    var parts := PartsOf(e.content);
    var text := TextCount(parts);
    var emotes := EmoteCount(parts);
    var background := e.background.Some? && e.background.value != "";
    Layout(
      if e.alert then AlertBox
      else if background then ImageBox
      else if text > 0 || emotes > 8 then TextBox
      else ReactBox,
      |parts| > 0 && text == 0)
  }

  /** `emoteonly` exactly when there is content and every part of it is an emote. */
  lemma EmoteOnlyMeans(e: ChatEntry)
    ensures Classify(e).emoteOnly <==> |PartsOf(e.content)| > 0 && forall k :: 0 <= k < |PartsOf(e.content)| ==> IsEmotePart(PartsOf(e.content)[k])
  {
    EmoteCountAll(PartsOf(e.content));
  }

  /** The large `react` box is for a plain entry of at most eight emotes and nothing else. */
  lemma ReactMeans(e: ChatEntry)
    ensures Classify(e).kind == ReactBox <==>
      && !e.alert && !(e.background.Some? && e.background.value != "")
      && |PartsOf(e.content)| <= 8
      && forall k :: 0 <= k < |PartsOf(e.content)| ==> IsEmotePart(PartsOf(e.content)[k])
  {
    EmoteCountAll(PartsOf(e.content));
  }

  /** The counting loop of `generate`. */
  method CountParts(parts: seq<string>) returns (textCount: nat, emoteCount: nat)
    ensures textCount == TextCount(parts) && emoteCount == EmoteCount(parts)
  {
    textCount, emoteCount := 0, 0;
    var i := 0;
    while i < |parts|
      invariant 0 <= i <= |parts|
      invariant emoteCount == EmoteCount(parts[..i]) && textCount == i - emoteCount
    {
      assert parts[..i + 1][..i] == parts[..i];
      if IsEmotePart(parts[i]) {
        emoteCount := emoteCount + 1;
      } else {
        textCount := textCount + 1;
      }
      i := i + 1;
    }
    assert parts[..i] == parts;
  }

  /** The element made for one part: an emote image, or a message span holding the escaped text. */
  datatype Item = EmoteImage(url: string) | MessageSpan(html: Option<string>)

  /** The image address of an emote id. */
  function EmoteUrl(id: string): string {
    "https://static-cdn.jtvnw.net/emoticons/v2/" + id + "/default/dark/2.0"
  }

  function ItemOf(part: string): Item {
    if IsEmotePart(part) then EmoteImage(EmoteUrl(part[2..])) else MessageSpan(ScrubHtmlFixed(Some(part)))
  }

  /**
   * The content elements of `generate`, one per part and in order: an
   * image exactly for an emote part, showing that emote; otherwise a span
   * that the page shows as the part's own text, or an empty one for an
   * empty part.
   */
  function Items(parts: seq<string>): (r: seq<Item>)
    ensures |r| == |parts|
    ensures forall k :: 0 <= k < |parts| ==> (r[k].EmoteImage? <==> IsEmotePart(parts[k]))
    ensures forall k :: 0 <= k < |parts| && IsEmotePart(parts[k]) ==> r[k] == EmoteImage(EmoteUrl(parts[k][2..]))
    ensures forall k :: 0 <= k < |parts| && r[k].MessageSpan? ==>
      (r[k].html.Some? <==> parts[k] != "") &&
      (r[k].html.Some? ==> Decode(r[k].html.value) == parts[k])
  {
    var r := seq(|parts|, k requires 0 <= k < |parts| => ItemOf(parts[k]));
    forall k | 0 <= k < |parts| && r[k].MessageSpan? && parts[k] != ""
      ensures Decode(r[k].html.value) == parts[k]
    {
      DecodeEscapeFixed(parts[k]);
    }
    r
  }

  /** The number of images among the elements. */
  function Images(items: seq<Item>): nat {
    if items == [] then 0
    else Images(items[..|items| - 1]) + (if items[|items| - 1].EmoteImage? then 1 else 0)
  }

  /** The elements built hold one image per emote the counting loop counts. */
  lemma {:induction false} ItemsCounted(parts: seq<string>)
    ensures Images(Items(parts)) == EmoteCount(parts)
    ensures |Items(parts)| - Images(Items(parts)) == TextCount(parts)
    decreases |parts|
  {
    if parts != [] {
      var n := |parts|;
      ItemsCounted(parts[..n - 1]);
      assert Items(parts)[..n - 1] == Items(parts[..n - 1]);
    }
  }

  lemma {:induction false} RenderAt(pieces: seq<Piece>, k: nat)
    requires k < |pieces|
    ensures Render(pieces)[k] == if pieces[k].TextPiece? then pieces[k].text else "\\!" + pieces[k].id
    decreases k
  {
    if k > 0 {
      RenderAt(pieces[1..], k - 1);
    }
  }

  /**
   * An emote placed by the formatter comes out as the image of its id; a
   * text piece comes out as its escaped text unless it itself starts with
   * `\!`, in which case it too is taken for an emote.
   */
  lemma ItemsOfPieces(pieces: seq<Piece>, k: nat)
    requires k < |pieces|
    ensures pieces[k].EmotePiece? && pieces[k].id != "" ==> Items(Render(pieces))[k] == EmoteImage(EmoteUrl(pieces[k].id))
    ensures pieces[k].TextPiece? && !IsEmotePart(pieces[k].text) ==>
      Items(Render(pieces))[k] == MessageSpan(ScrubHtmlFixed(Some(pieces[k].text)))
    ensures pieces[k].TextPiece? && IsEmotePart(pieces[k].text) ==> Items(Render(pieces))[k].EmoteImage?
  {
    RenderAt(pieces, k);
    if pieces[k].EmotePiece? && pieces[k].id != "" {
      var part := "\\!" + pieces[k].id;
      assert part[..2] == "\\!" && part[2..] == pieces[k].id;
    }
  }

  // ---------------------------------------------------------------------
  // the barrier loop

  /** `waitPending()`, reading the pending count from `polls`. */
  method WaitPending(polls: seq<int>) returns (ok: bool, count: nat)
    requires |polls| >= 12
    ensures (ok, count) == Barrier(polls, 0)
  {
    var attempts := 0;
    while true
      invariant 0 <= attempts <= 11
      invariant Barrier(polls, attempts) == Barrier(polls, 0)
      decreases 11 - attempts
    {
      var pendingCount := polls[attempts];
      if pendingCount == 0 {
        return true, attempts + 1;
      } else if pendingCount < 0 || attempts > 10 {
        return false, attempts + 1;
      }
      attempts := attempts + 1;
    }
  }

  // ---------------------------------------------------------------------
  // the object

  /**
   * The `CHATLOG` object. `data` holds the entries; before `_init` it is
   * empty and `initialized` is false. `attached` says whether the chat box
   * has been found. `generated` hands out the stamps of new entries.
   */
  class ChatLog {
    var attached: bool
    var initialized: bool
    var data: array<Option<Slot>>
    var size: int
    var index: int
    var pending: int
    var display: seq<nat>
    var generated: nat

    ghost predicate Valid()
      reads this
    {
      && (initialized ==> 1 <= size == data.Length && 0 <= index < size)
      && (!initialized ==> index == 0 && !attached)
    }

    /** The log as a value. */
    function State(): LogState
      reads this, data
    {
      LogState(data[..], index, pending, display)
    }

    constructor ()
      ensures Valid() && !attached && !initialized
      ensures State() == LogState([], 0, 0, []) && generated == 0
    {
      attached, initialized := false, false;
      data := new Option<Slot>[0];
      size, index, pending := 0, 0, 0;
      display := [];
      generated := 0;
    }

    /** `_init(s)`: a size below one does nothing; otherwise the old entries are cleared and `s` empty slots made. */
    method Init(s: int)
      requires Valid()
      modifies this, data
      ensures Valid()
      ensures s < 1 ==> State() == old(State()) && initialized == old(initialized)
      ensures s >= 1 ==> initialized && size == s && fresh(data)
      ensures s >= 1 ==> State() == LogState(
        seq(s, _ => None),
        0,
        old(pending),
        if old(initialized) then ClearFrom(old(data[..]), old(display), 0).1 else old(display))
      ensures attached == old(attached) && generated == old(generated)
    {
      if s < 1 {
        return;
      }
      if initialized {
        Clear();
      }
      size := s;
      data := new Option<Slot>[s](_ => None);
      initialized := true;
      assert data[..] == seq(s, _ => None);
    }

    /** The chat box turns up. */
    method Attach()
      requires Valid() && initialized
      modifies this
      ensures Valid() && attached
      ensures State() == old(State()) && initialized && generated == old(generated)
    {
      attached := true;
    }

    /** `_insert(x)`: without the chat box only the pending count changes; otherwise the buffer step. */
    method Insert(x: Slot)
      requires Valid()
      modifies this, data
      ensures Valid() && data == old(data)
      ensures State() == if old(attached) then InsertState(old(State()), x) else old(State()).(pending := old(pending) - 1)
      ensures attached == old(attached) && initialized == old(initialized) && generated == old(generated)
    {
      ghost var before := State();
      pending := pending - 1;
      if !attached {
        return;
      }
      var prev := data[index];
      display := Remove(prev, display).1;
      data[index] := Some(x);
      display := display + [x.stamp];
      assert data[..] == before.slots[before.index := Some(x)];
      index := (index + 1) % size;
    }

    /** `_remove(data[i])`; the answer is whether an element was taken out. */
    method RemoveAt(i: int) returns (removed: bool)
      requires Valid() && 0 <= i < data.Length
      modifies data, `display
      ensures Valid()
      ensures removed <==> old(data[i]).Some? && old(data[i]).value.shown
      ensures (data[..], display) == (old(data[..])[i := Remove(old(data[i]), old(display)).0], Remove(old(data[i]), old(display)).1)
    {
      var (slot, d) := Remove(data[i], display);
      removed := data[i].Some? && data[i].value.shown;
      data[i] := slot;
      display := d;
    }

    /** `clear()`, once `_init` has made the buffer: the cursor goes to 0 and every entry still shown loses its element. */
    method Clear()
      requires Valid() && initialized
      modifies this, data
      ensures Valid() && data == old(data)
      ensures (data[..], display) == ClearFrom(old(data[..]), old(display), 0)
      ensures index == 0 && pending == old(pending)
      ensures attached == old(attached) && initialized == old(initialized) && generated == old(generated)
    {
      index := 0;
      var i := 0;
      while i < data.Length
        invariant 0 <= i <= data.Length
        invariant Valid() && data == old(data) && index == 0 && pending == old(pending)
        invariant attached == old(attached) && initialized == old(initialized) && generated == old(generated)
        invariant ClearFrom(data[..], display, i) == ClearFrom(old(data[..]), old(display), 0)
        modifies data, `display
      {
        var removed := RemoveAt(i);
        i := i + 1;
      }
    }

    /**
     * `delete(user, id)`: the barrier, then the scan (which runs whatever
     * the barrier answers), once `_init` has made the buffer. `crashed`
     * says that the scan threw part way.
     */
    method Delete(user: string, id: Option<string>, polls: seq<int>) returns (ok: bool, crashed: bool)
      requires Valid() && initialized && |polls| >= 12
      modifies data, `display
      ensures Valid()
      ensures ok == Barrier(polls, 0).0
      ensures (data[..], display, crashed) == Scan(old(data[..]), old(display), 0, user, id)
    {
      var polled;
      ok, polled := WaitPending(polls);
      var i := 0;
      while i < data.Length
        invariant 0 <= i <= data.Length
        invariant Scan(data[..], display, i, user, id) == Scan(old(data[..]), old(display), 0, user, id)
        modifies data, `display
      {
        var element := data[i];
        if element.None? {
          i := i + 1;
          continue;
        }
        var x := element.value;
        if x.entry.name.None? {
          return ok, true;
        }
        if Picked(x.entry, user, id) {
          var removed := RemoveAt(i);
        } else if RepliesTo(x.entry, user) {
          if !Redactable(x) {
            return ok, true;
          }
          data[i] := Some(x.(redacted := true));
        }
        i := i + 1;
      }
      crashed := false;
    }

    /**
     * `generate(format)`: a stamp for the new entry, the pending count up
     * by one for the duration, the parts counted and the entry inserted.
     * The answer is the class of the element built.
     */
    method Generate(e: ChatEntry) returns (layout: Layout)
      requires Valid()
      modifies this, data
      ensures Valid() && data == old(data) && generated == old(generated) + 1
      ensures layout == Classify(e)
      ensures var x := Slot(old(generated), e, true, false);
        State() == if old(attached) then InsertState(old(State()).(pending := old(pending) + 1), x) else old(State())
      ensures attached == old(attached) && initialized == old(initialized)
    {
      pending := pending + 1;
      var stamp := generated;
      generated := generated + 1;
      var parts := PartsOf(e.content);
      var textCount, emoteCount := CountParts(parts);
      var background := e.background.Some? && e.background.value != "";
      var kind := if e.alert then AlertBox else if background then ImageBox else if textCount > 0 || emoteCount > 8 then TextBox else ReactBox;
      layout := Layout(kind, |parts| > 0 && textCount == 0);
      Insert(Slot(stamp, e, true, false));
    }
  }
}
