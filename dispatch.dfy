/**
 * `handleMessage`: what the overlay does with one parsed line. The effects
 * are the lines sent on the socket and the entry handed to the chat log.
 * A line that makes the handler throw has no effect beyond those steps
 * already taken; the only throwing steps come before any effect, so the
 * outcome is then `Rejected`.
 */
module Dispatch {
  import opened Wrappers
  import opened JsString
  import opened IrcMessage
  import opened ChatFormat
  import opened Commands

  datatype Outcome = Outcome(sent: seq<string>, generated: Option<ChatEntry>) | Rejected

  /** The text a missing parameter string or channel turns into when spliced into a line. */
  function ParamsText(params: Option<string>): string {
    if params.None? then "undefined" else params.value
  }

  function ChannelText(channel: Option<string>): string {
    if channel.None? then "null" else channel.value
  }

  /** The command flag JavaScript reads as true: a non-empty command. */
  predicate Flagged(e: ChatEntry) {
    e.command.Some? && e.command.value != ""
  }

  /**
   * A PRIVMSG. `attached` says whether the chat log has found its
   * container; without it no entry is built and reading the name throws.
   * `search` is what the GIF search answers.
   */
  function Privmsg(msg: Message, attached: bool, search: TenorResponse): Outcome {
    var format := if attached then Format(msg) else None;
    if format.None? || format.value.name.None? then Rejected
    else
      var f := format.value;
      if ToUpper(f.name.value) == "NIGHTBOT" then Outcome([], None)
      else
        var (botspeak, g) := if Flagged(f) then HandleCommands(f, search) else (None, f);
        var sent := if botspeak.Some? && botspeak.value != "" then
          ["PRIVMSG " + ChannelText(msg.command.channel) + " :" + botspeak.value] else [];
        if Flagged(g) then Outcome(sent, None) else Outcome(sent, Some(g))
  }

  /**
   * `handleMessage(ircmsg, twitchsock)`. The RECONNECT branch asks the
   * socket for a `sock` field it does not have, so it does nothing.
   */
  function HandleMessage(msg: Message, attached: bool, search: TenorResponse): Outcome {
    if msg.command.kind == "PING" then Outcome(["PONG :" + ParamsText(msg.params)], None)
    else if msg.command.kind == "PRIVMSG" then Privmsg(msg, attached, search)
    else Outcome([], None)
  }

  /** A keep-alive ping is answered with exactly `PONG :` and its parameters. */
  lemma PingAnswered(msg: Message, attached: bool, search: TenorResponse, p: string)
    requires msg.command.kind == "PING" && msg.params == Some(p)
    ensures HandleMessage(msg, attached, search) == Outcome(["PONG :" + p], None)
  {
  }

  /** Anything but PING and PRIVMSG (RECONNECT included) has no effect. */
  lemma OthersIgnored(msg: Message, attached: bool, search: TenorResponse)
    requires msg.command.kind != "PING" && msg.command.kind != "PRIVMSG"
    ensures HandleMessage(msg, attached, search) == Outcome([], None)
  {
  }

  /** The bot itself is never shown and never answered. */
  lemma NightbotIgnored(msg: Message, search: TenorResponse)
    requires msg.command.kind == "PRIVMSG"
    requires Format(msg).Some? && Format(msg).value.name.Some?
    requires ToUpper(Format(msg).value.name.value) == "NIGHTBOT"
    ensures HandleMessage(msg, true, search) == Outcome([], None)
  {
  }

  /** Whatever reaches the chat log is no longer flagged as a command. */
  lemma GeneratedNotCommand(msg: Message, attached: bool, search: TenorResponse)
    ensures var o := HandleMessage(msg, attached, search);
      o.Outcome? && o.generated.Some? ==> !Flagged(o.generated.value)
  {
  }

  /**
   * A chat message sends a line only when the command handler speaks, and
   * then exactly `PRIVMSG <channel> :<reply>`.
   */
  lemma PrivmsgSends(msg: Message, attached: bool, search: TenorResponse)
    requires msg.command.kind == "PRIVMSG"
    ensures var o := HandleMessage(msg, attached, search);
      o.Outcome? && o.sent != [] ==>
        && attached && Format(msg).Some? && Flagged(Format(msg).value)
        && HandleCommands(Format(msg).value, search).0.Some?
        && o.sent == ["PRIVMSG " + ChannelText(msg.command.channel) + " :" + HandleCommands(Format(msg).value, search).0.value]
  {
  }

  /** An ordinary message (no command) is shown as built, and nothing is sent. */
  lemma OrdinaryShown(msg: Message, search: TenorResponse)
    requires msg.command.kind == "PRIVMSG"
    requires Format(msg).Some? && Format(msg).value.name.Some?
    requires ToUpper(Format(msg).value.name.value) != "NIGHTBOT"
    requires !Flagged(Format(msg).value)
    ensures HandleMessage(msg, true, search) == Outcome([], Format(msg))
  {
  }

  /** A lone `!` is an empty command, which is not a command: the entry is shown. */
  lemma BareBangShown(msg: Message, search: TenorResponse)
    requires msg.command.kind == "PRIVMSG"
    requires Format(msg).Some? && Format(msg).value.name.Some?
    requires ToUpper(Format(msg).value.name.value) != "NIGHTBOT"
    requires Format(msg).value.command == Some("")
    ensures HandleMessage(msg, true, search) == Outcome([], Format(msg))
  {
    OrdinaryShown(msg, search);
  }

  /** Before the chat log has its container, every chat message throws. */
  lemma DetachedRejects(msg: Message, search: TenorResponse)
    requires msg.command.kind == "PRIVMSG"
    ensures HandleMessage(msg, false, search) == Rejected
  {
  }

  /** `handleMessage`, building the entry with the loops of `formatChat` and the command handler. */
  method Handle(msg: Message, attached: bool, search: TenorResponse) returns (outcome: Outcome)
    ensures outcome == HandleMessage(msg, attached, search)
  {
    if msg.command.kind == "PING" {
      return Outcome(["PONG :" + ParamsText(msg.params)], None);
    }
    if msg.command.kind != "PRIVMSG" {
      return Outcome([], None);
    }
    var format: Option<ChatEntry> := None;
    if attached {
      format := FormatChat(msg);
    }
    if format.None? || format.value.name.None? {
      return Rejected;
    }
    var f := format.value;
    if ToUpper(f.name.value) == "NIGHTBOT" {
      return Outcome([], None);
    }
    var botspeak: Option<string> := None;
    if Flagged(f) {
      botspeak, f := RunCommand(f, search);
    }
    var sent: seq<string> := [];
    if botspeak.Some? && botspeak.value != "" {
      sent := ["PRIVMSG " + ChannelText(msg.command.channel) + " :" + botspeak.value];
    }
    if Flagged(f) {
      return Outcome(sent, None);
    }
    outcome := Outcome(sent, Some(f));
  }
}
