/**
 * `IRC`: the connection to the chat server, with reconnection and an
 * increasing retry timeout.
 *
 * Sockets are numbered in the order they are created; the newest is the
 * one `sock` refers to. Socket events, and the firing of a scheduled
 * retry timer, are calls made from outside. The state records what the
 * object asks of the sockets: the lines sent, each tagged with the
 * socket it goes to, and the sockets it closes.
 */
module IrcClient {
  import opened Wrappers
  import opened JsString
  import opened IrcMessage

  datatype IrcState = IrcState(
    sock: Option<nat>,
    created: nat,
    timeout: real,
    reconnect: bool,
    timers: nat,
    sent: seq<(nat, string)>,
    closed: seq<nat>)

  /** Before any connection: no socket, a one-second timeout, no reconnection. */
  const Start := IrcState(None, 0, 1000.0, false, 0, [], [])

  /** The longest timeout after which a retry is still scheduled. */
  const Patience: real := 100000.0

  /**
   * What every reachable state satisfies: the current socket and every
   * socket closed or written to has been created, and every socket created
   * before the current one has been closed.
   */
  predicate Sane(st: IrcState) {
    && (st.sock.Some? ==> st.sock.value < st.created)
    && (forall i :: 0 <= i < |st.closed| ==> st.closed[i] < st.created)
    && (forall i :: 0 <= i < |st.sent| ==> st.sent[i].0 < st.created)
    && (forall n: nat :: n < st.created && st.sock != Some(n) ==> n in st.closed)
  }

  /**
   * `_init`: the current socket (if any) is closed and a new one, never
   * closed nor written to before, becomes current; nothing else changes.
   */
  function Reinit(st: IrcState): (r: IrcState)
    ensures r.sock == Some(st.created) && r.created == st.created + 1
    ensures r.closed == st.closed + (if st.sock.Some? then [st.sock.value] else [])
    ensures r.timeout == st.timeout && r.reconnect == st.reconnect && r.timers == st.timers && r.sent == st.sent
    ensures Sane(st) ==> Sane(r) && st.created !in r.closed && forall i :: 0 <= i < |r.sent| ==> r.sent[i].0 != st.created
  {
    st.(sock := Some(st.created), created := st.created + 1,
        closed := st.closed + (if st.sock.Some? then [st.sock.value] else []))
  }

  /** `connect`: `_init`, then reconnection on. */
  function Connected(st: IrcState): IrcState {
    Reinit(st).(reconnect := true)
  }

  /** `disconnect`: reconnection off and the current socket closed. */
  function Disconnected(st: IrcState): IrcState {
    st.(reconnect := false, closed := st.closed + (if st.sock.Some? then [st.sock.value] else []))
  }

  /** The lines socket `s` sends when it opens: the login on `s`, the capability requests on the current socket. */
  function OpenLines(s: nat, current: Option<nat>): seq<(nat, string)> {
    [(s, "PASS oauth:also not for you"), (s, "NICK good luck!"), (s, "JOIN #your channel owo")] +
    (if current.Some? then [(current.value, "CAP REQ :twitch.tv/commands"), (current.value, "CAP REQ :twitch.tv/tags")] else [])
  }

  /** The `open` handler of socket `s`. */
  function Opened(st: IrcState, s: nat): IrcState {
    st.(timeout := 1000.0, sent := st.sent + OpenLines(s, st.sock))
  }

  /** The `error` handler of socket `s`: that socket is closed. */
  function Errored(st: IrcState, s: nat): IrcState {
    st.(closed := st.closed + [s])
  }

  /** Whether a `close` event schedules a retry. */
  predicate Retries(st: IrcState) {
    st.reconnect && st.timeout <= Patience
  }

  /** The `close` handler: schedule a retry, or give up and reset. */
  function Closed(st: IrcState): IrcState {
    if !Retries(st) then st.(timeout := 1000.0, reconnect := false)
    else st.(timers := st.timers + 1)
  }

  /** The retry timer: the timeout grows by half and the connection is made again, reconnecting or not. */
  function Fired(st: IrcState): IrcState
    requires st.timers > 0
  {
    Reinit(st.(timers := st.timers - 1, timeout := st.timeout * 1.5))
  }

  /** `k` closes of the current socket, each followed by its retry while retries are scheduled. */
  function Retry(st: IrcState, k: nat): IrcState
    decreases k
  {
    if k == 0 then st
    else if !Retries(st) then Closed(st)
    else Retry(Fired(Closed(st)), k - 1)
  }

  /** The timeout at the `k`-th retry in a row. */
  function Backoff(k: nat): (r: real)
    ensures r >= 1000.0
    decreases k
  {
    if k == 0 then 1000.0 else Backoff(k - 1) * 1.5
  }

  lemma {:induction false} BackoffGrows(j: nat, k: nat)
    requires j <= k
    ensures Backoff(j) <= Backoff(k)
    decreases k - j
  {
    if j < k {
      BackoffGrows(j, k - 1);
    }
  }

  /** Twelve growths stay within patience, a thirteenth does not. */
  lemma BackoffLimit()
    ensures Backoff(11) == 86497.55859375 && Backoff(11) <= Patience
    ensures Backoff(12) == 129746.337890625 && Backoff(12) > Patience
  {
    assert Backoff(1) == 1500.0;
    assert Backoff(2) == 2250.0;
    assert Backoff(3) == 3375.0;
    assert Backoff(4) == 5062.5;
    assert Backoff(5) == 7593.75;
    assert Backoff(6) == 11390.625;
    assert Backoff(7) == 17085.9375;
    assert Backoff(8) == 25628.90625;
    assert Backoff(9) == 38443.359375;
    assert Backoff(10) == 57665.0390625;
  }

  /** Retries from timeout `Backoff(j)` go on, each with a new socket and a longer timeout; nothing is sent and the number of pending timers is as before. */
  lemma {:induction false} RetriesGoOn(st: IrcState, j: nat, k: nat)
    requires st.reconnect && st.timeout == Backoff(j) && j + k <= 12
    ensures var r := Retry(st, k);
      r.reconnect && r.created == st.created + k && r.timeout == Backoff(j + k) && r.timers == st.timers && r.sent == st.sent
    ensures k > 0 ==> Retry(st, k).sock == Some(st.created + k - 1)
    decreases k
  {
    if k > 0 {
      BackoffLimit();
      BackoffGrows(j, 11);
      var next := Fired(Closed(st));
      assert next.reconnect && next.created == st.created + 1 && next.timeout == Backoff(j + 1);
      assert next.timers == st.timers && next.sent == st.sent;
      assert Retry(st, k) == Retry(next, k - 1);
      RetriesGoOn(next, j + 1, k - 1);
    }
  }

  /** Once the timeout has grown twelve times, the next close gives up and resets. */
  lemma {:induction false} GivesUpAfter(st: IrcState, j: nat, k: nat)
    requires st.reconnect && st.timeout == Backoff(j) && j + k == 12
    ensures Retry(st, k + 1) == Retry(st, k).(timeout := 1000.0, reconnect := false)
    decreases k
  {
    BackoffLimit();
    if k > 0 {
      BackoffGrows(j, 11);
      GivesUpAfter(Fired(Closed(st)), j + 1, k - 1);
    }
  }

  /**
   * With no socket opening in between, twelve closes in a row are each
   * retried with a new socket, and the thirteenth gives up: reconnection
   * is off and the timeout is back to one second.
   */
  lemma ThirteenthCloseGivesUp(st: IrcState)
    requires st.reconnect && st.timeout == 1000.0
    ensures Retry(st, 12).reconnect && Retry(st, 12).created == st.created + 12
    ensures Retry(st, 13) == Retry(st, 12).(timeout := 1000.0, reconnect := false)
  {
    RetriesGoOn(st, 0, 12);
    GivesUpAfter(st, 0, 12);
  }

  /** Opening the current socket sends the login and then the capability requests, all on it, and resets the timeout. */
  lemma OpenCurrent(st: IrcState, s: nat)
    requires st.sock == Some(s)
    ensures Opened(st, s).timeout == 1000.0
    ensures Opened(st, s).sent == st.sent + [
      (s, "PASS oauth:also not for you"), (s, "NICK good luck!"), (s, "JOIN #your channel owo"),
      (s, "CAP REQ :twitch.tv/commands"), (s, "CAP REQ :twitch.tv/tags")]
  {
  }

  /**
   * Only the current socket can open: any other socket created so far has
   * been closed, and a closed socket never fires `open`.
   */
  lemma OpenIsCurrent(st: IrcState, s: nat)
    requires Sane(st) && s < st.created && s !in st.closed
    ensures st.sock == Some(s)
  {
  }

  /** An open resets the backoff: the next run of retries starts again at one second. */
  lemma OpenResets(st: IrcState, s: nat)
    requires st.reconnect
    ensures Opened(st, s).timeout == Backoff(0) && Retries(Opened(st, s))
  {
  }

  /** After `disconnect`, the next close gives up. */
  lemma DisconnectStops(st: IrcState)
    ensures Closed(Disconnected(st)).reconnect == false
    ensures Closed(Disconnected(st)).timers == st.timers
  {
  }

  /** A retry already scheduled when `disconnect` is called still creates a new socket. */
  lemma DisconnectRace(st: IrcState)
    requires st.timers > 0
    ensures Fired(Disconnected(st)).created == st.created + 1
    ensures Fired(Disconnected(st)).sock == Some(st.created)
    ensures !Fired(Disconnected(st)).reconnect
  {
  }

  /**
   * Calling `connect` twice closes the first socket. That socket's close
   * event schedules a retry, whose `_init` closes the second socket and
   * makes a third.
   */
  lemma ConnectTwice(st: IrcState)
    requires st.timeout <= Patience
    ensures var twice := Connected(Connected(st));
      && twice.created == st.created + 2
      && twice.closed[|twice.closed| - 1] == st.created
      && Closed(twice).timers == st.timers + 1
      && Fired(Closed(twice)).created == st.created + 3
      && Fired(Closed(twice)).sock == Some(st.created + 2)
      && Fired(Closed(twice)).closed[|Fired(Closed(twice)).closed| - 1] == st.created + 1
  {
  }

  /** The connection starts sane. */
  lemma StartSane()
    ensures Sane(Start)
  {
  }

  /** `connect` keeps the state sane. */
  lemma ConnectedSane(st: IrcState)
    requires Sane(st)
    ensures Sane(Connected(st))
  {
  }

  /** `disconnect` keeps the state sane. */
  lemma DisconnectedSane(st: IrcState)
    requires Sane(st)
    ensures Sane(Disconnected(st))
  {
  }

  /** The `open` event of a live socket keeps the state sane. */
  lemma OpenedSane(st: IrcState, s: nat)
    requires Sane(st) && s < st.created && s !in st.closed
    ensures Sane(Opened(st, s))
  {
  }

  /** The `error` event of a created socket keeps the state sane. */
  lemma ErroredSane(st: IrcState, s: nat)
    requires Sane(st) && s < st.created
    ensures Sane(Errored(st, s))
  {
  }

  /** A `close` event keeps the state sane. */
  lemma ClosedSane(st: IrcState)
    requires Sane(st)
    ensures Sane(Closed(st))
  {
  }

  /** A retry timer keeps the state sane. */
  lemma FiredSane(st: IrcState)
    requires Sane(st) && st.timers > 0
    ensures Sane(Fired(st))
  {
  }

  /** The non-empty lines of a socket message, parsed, in order. */
  function Frames(lines: seq<string>): (r: seq<Message>)
    ensures |r| <= |lines|
  {
    if lines == [] then []
    else (if lines[0] == "" then [] else [Parse(lines[0])]) + Frames(lines[1..])
  }

  lemma {:induction false} FramesAppend(a: seq<string>, b: seq<string>)
    ensures Frames(a + b) == Frames(a) + Frames(b)
    decreases |a|
  {
    if a != [] {
      var ab := a + b;
      assert ab[0] == a[0];
      assert ab[1..] == a[1..] + b;
      FramesAppend(a[1..], b);
      var first := if a[0] == "" then [] else [Parse(a[0])];
      assert Frames(ab) == first + Frames(ab[1..]);
      assert Frames(a) == first + Frames(a[1..]);
    } else {
      assert a + b == b;
    }
  }

  lemma FramesStep(lines: seq<string>, i: nat)
    requires i < |lines|
    ensures Frames(lines[..i + 1]) == Frames(lines[..i]) + (if lines[i] == "" then [] else [Parse(lines[i])])
  {
    assert lines[..i + 1] == lines[..i] + [lines[i]];
    FramesAppend(lines[..i], [lines[i]]);
    assert [lines[i]][1..] == [];
  }

  /** The first line of a socket message is handled before the lines after it. */
  lemma FirstLine(a: string, b: string)
    requires '\n' !in a
    ensures Frames(Split(a + "\n" + b, '\n')) == (if a == "" then [] else [Parse(a)]) + Frames(Split(b, '\n'))
  {
    SplitAt(a, b, '\n');
    assert a + "\n" + b == a + ['\n'] + b;
    FramesAppend([a], Split(b, '\n'));
  }

  /** A message without a line break holds one frame, or none when it is empty. */
  lemma SingleLine(a: string)
    requires '\n' !in a
    ensures Frames(Split(a, '\n')) == if a == "" then [] else [Parse(a)]
  {
    SplitNoSep(a, '\n');
  }

  /** The `IRC` object. */
  class Client {
    var sock: Option<nat>
    var created: nat
    var timeout: real
    var reconnect: bool
    var timers: nat
    var sent: seq<(nat, string)>
    var closed: seq<nat>

    function State(): IrcState
      reads this
    {
      IrcState(sock, created, timeout, reconnect, timers, sent, closed)
    }

    /** The object's state is one the events can reach. */
    predicate Valid()
      reads this
    {
      Sane(State())
    }

    constructor ()
      ensures State() == Start && Valid()
    {
      sock, created, timeout, reconnect, timers, sent, closed := None, 0, 1000.0, false, 0, [], [];
    }

    /** `_init(self)`. */
    method Init()
      requires Valid()
      modifies this
      ensures State() == Reinit(old(State())) && Valid()
    {
      if sock.Some? {
        closed := closed + [sock.value];
      }
      sock := Some(created);
      created := created + 1;
    }

    method Connect()
      requires Valid()
      modifies this
      ensures State() == Connected(old(State())) && Valid()
    {
      Init();
      reconnect := true;
    }

    method Disconnect()
      requires Valid()
      modifies this
      ensures State() == Disconnected(old(State())) && Valid()
    {
      reconnect := false;
      if sock.Some? {
        closed := closed + [sock.value];
      }
    }

    /**
     * The `open` event of socket `s`, which the browser fires only for a
     * socket that has been created and not closed; all five lines go to it.
     */
    method OnOpen(s: nat)
      requires Valid() && s < created && s !in closed
      modifies this
      ensures State() == Opened(old(State()), s) && Valid()
      ensures sent == old(sent) + [
        (s, "PASS oauth:also not for you"), (s, "NICK good luck!"), (s, "JOIN #your channel owo"),
        (s, "CAP REQ :twitch.tv/commands"), (s, "CAP REQ :twitch.tv/tags")]
    {
      timeout := 1000.0;
      sent := sent + [(s, "PASS oauth:also not for you")];
      sent := sent + [(s, "NICK good luck!")];
      sent := sent + [(s, "JOIN #your channel owo")];
      if sock.None? {
        return;
      }
      sent := sent + [(sock.value, "CAP REQ :twitch.tv/commands")];
      sent := sent + [(sock.value, "CAP REQ :twitch.tv/tags")];
    }

    /** The `error` event of socket `s`. */
    method OnError(s: nat)
      requires Valid() && s < created
      modifies this
      ensures State() == Errored(old(State()), s) && Valid()
    {
      closed := closed + [s];
    }

    /** The `close` event of any socket; `delay` is the length of the retry timer it sets, if any. */
    method OnClose() returns (delay: Option<real>)
      requires Valid()
      modifies this
      ensures State() == Closed(old(State())) && Valid()
      ensures delay.Some? <==> Retries(old(State()))
      ensures delay.Some? ==> delay.value == old(timeout)
    {
      if !reconnect || timeout > Patience {
        timeout := 1000.0;
        reconnect := false;
        return None;
      }
      timers := timers + 1;
      delay := Some(timeout);
    }

    /** A scheduled retry timer fires. */
    method OnTimer()
      requires Valid() && timers > 0
      modifies this
      ensures State() == Fired(old(State())) && Valid()
    {
      timers := timers - 1;
      timeout := timeout * 1.5;
      Init();
    }

    /** One line of a `message` event: skipped when empty, else parsed. */
    method OnLine(line: string) returns (frames: seq<Message>)
      ensures frames == if line == "" then [] else [Parse(line)]
    {
      frames := [];
      if |line| != 0 {
        var m := ParseMessage(line);
        frames := [m];
      }
    }

    /** The `message` event: each non-empty line is parsed and handed on, in order. */
    method OnMessage(data: string) returns (messages: seq<Message>)
      ensures messages == Frames(Split(data, '\n'))
    {
      var lines := Split(data, '\n');
      messages := [];
      var i := 0;
      while i < |lines|
        invariant 0 <= i <= |lines|
        invariant messages == Frames(lines[..i])
      {
        FramesStep(lines, i);
        var frames := OnLine(lines[i]);
        messages := messages + frames;
        i := i + 1;
      }
      assert lines[..i] == lines;
    }
  }
}
