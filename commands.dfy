/**
 * `handleCommands`: the chat commands the overlay reacts to.
 *
 *   - `!gif` with no query makes the bot ask for one.
 *   - `!gif <query>` looks the query up on Tenor and turns the entry into an
 *     image entry when a result carries a usable format.
 *   - `!onlyfans` turns the entry into an alert.
 *
 * Any other command leaves the entry flagged as a command, so it is not shown.
 *
 * The Tenor search is abstracted: its answer for the entry's query is an
 * input.
 */
module Commands {
  import opened Wrappers
  import opened JsString
  import opened ChatFormat

  /**
   * The formats of one search result. A key is present when the result
   * offers that format. Its value is the format's `url`, or `None` when the
   * format has no usable url.
   */
  type MediaFormats = map<string, Option<string>>

  /** `tenorSearch(query)`: `null` (a failed request, or a query that is not a string) or the results. */
  datatype TenorResponse = Failed | Results(results: seq<MediaFormats>)

  /** The format names, best first. */
  const Preference: seq<string> := ["tinygif_transparent", "tinygif", "gif_transparent", "gif"]

  /** A url JavaScript reads as true. */
  function UrlOf(u: Option<string>): Option<string> {
    if u.Some? && u.value != "" then u else None
  }

  /**
   * The url taken from one result. It comes from the best format the result
   * offers. That format's url being empty skips the result; a worse format
   * is never used instead.
   */
  function Source(formats: MediaFormats): (r: Option<string>)
    ensures r.Some? ==> r.value != ""
  {
    if "tinygif_transparent" in formats then UrlOf(formats["tinygif_transparent"])
    else if "tinygif" in formats then UrlOf(formats["tinygif"])
    else if "gif_transparent" in formats then UrlOf(formats["gif_transparent"])
    else if "gif" in formats then UrlOf(formats["gif"])
    else None
  }

  /** The first result, in order, that yields a url. */
  function FirstSource(results: seq<MediaFormats>): (r: Option<string>)
    ensures r.Some? ==> r.value != ""
  {
    if results == [] then None
    else if Source(results[0]).Some? then Source(results[0])
    else FirstSource(results[1..])
  }

  /** The url of a result is that of the best format it offers, by position in the preference list. */
  lemma SourcePreference(formats: MediaFormats, k: nat)
    requires k < |Preference| && Preference[k] in formats
    requires forall j :: 0 <= j < k ==> Preference[j] !in formats
    ensures Source(formats) == UrlOf(formats[Preference[k]])
  {
    if k > 0 {
      assert Preference[0] !in formats;
    }
    if k > 1 {
      assert Preference[1] !in formats;
    }
    if k > 2 {
      assert Preference[2] !in formats;
    }
  }

  /** A result offering no format at all yields nothing. */
  lemma SourceNone(formats: MediaFormats)
    requires forall j :: 0 <= j < |Preference| ==> Preference[j] !in formats
    ensures Source(formats) == None
  {
    assert Preference[0] !in formats && Preference[1] !in formats;
    assert Preference[2] !in formats && Preference[3] !in formats;
  }

  /** The search picks the earliest result with a url, and that result's url. */
  lemma {:induction false} FirstSourceEarliest(results: seq<MediaFormats>, u: string)
    ensures FirstSource(results) == Some(u) <==>
      exists k :: 0 <= k < |results| && Source(results[k]) == Some(u) && forall j :: 0 <= j < k ==> Source(results[j]).None?
    decreases |results|
  {
    if results != [] {
      FirstSourceEarliest(results[1..], u);
      var t := results[1..];
      if FirstSource(results) == Some(u) {
        if Source(results[0]).None? {
          var k :| 0 <= k < |t| && Source(t[k]) == Some(u) && forall j :: 0 <= j < k ==> Source(t[j]).None?;
          assert Source(results[k + 1]) == Some(u);
          forall j | 0 <= j < k + 1 ensures Source(results[j]).None? {
            if j > 0 {
              assert results[j] == t[j - 1];
            }
          }
        } else {
          assert Source(results[0]) == Some(u);
        }
      }
      if exists k :: 0 <= k < |results| && Source(results[k]) == Some(u) && forall j :: 0 <= j < k ==> Source(results[j]).None? {
        var k :| 0 <= k < |results| && Source(results[k]) == Some(u) && forall j :: 0 <= j < k ==> Source(results[j]).None?;
        if k > 0 {
          assert Source(results[0]).None?;
          assert Source(t[k - 1]) == Some(u);
          forall j | 0 <= j < k - 1 ensures Source(t[j]).None? {
            assert t[j] == results[j + 1];
          }
        }
      }
    }
  }

  /** No result with a url means no background. */
  lemma {:induction false} FirstSourceNone(results: seq<MediaFormats>)
    ensures FirstSource(results).None? <==> forall k :: 0 <= k < |results| ==> Source(results[k]).None?
    decreases |results|
  {
    if results != [] {
      FirstSourceNone(results[1..]);
      assert forall k :: 1 <= k < |results| ==> results[k] == results[1..][k - 1];
    }
  }

  /** The `for` loop over the results: skip those without a url, stop at the first with one. */
  method PickGif(results: seq<MediaFormats>) returns (background: Option<string>)
    ensures background == FirstSource(results)
  {
    background := None;
    var i := 0;
    while i < |results|
      invariant 0 <= i <= |results|
      invariant FirstSource(results) == FirstSource(results[i..])
    {
      assert results[i..][0] == results[i] && results[i..][1..] == results[i + 1..];
      var formats := results[i];
      var source: Option<string> := None;
      if "tinygif_transparent" in formats {
        source := formats["tinygif_transparent"];
      } else if "tinygif" in formats {
        source := formats["tinygif"];
      } else if "gif_transparent" in formats {
        source := formats["gif_transparent"];
      } else if "gif" in formats {
        source := formats["gif"];
      }
      if source.None? || source.value == "" {
        i := i + 1;
        continue;
      }
      background := source;
      return;
    }
    assert results[i..] == [];
  }

  /** A content value JavaScript reads as true; a parts array always is. */
  predicate ContentTruthy(c: Content) {
    c.Parts? || (c.Plain? && c.text != "")
  }

  /** `format.name` turned into a string: a missing name reads `null`. */
  function NameText(name: Option<string>): string {
    if name.None? then "null" else name.value
  }

  /** `/^\d+$/`: one or more decimal digits and nothing else. */
  predicate IsTenorId(s: string) {
    s != "" && forall k :: 0 <= k < |s| ==> IsDigit(s[k])
  }

  /** What the bot asks when `!gif` comes without a query. */
  function AskForQuery(name: Option<string>): string {
    "@" + NameText(name) + " -- Please enter a search query!"
  }

  /**
   * The GIF rule, given what the search answers for the entry's query.
   * A media id, a failed search and an empty result list leave the entry
   * unchanged.
   */
  function GifCommand(entry: ChatEntry, search: TenorResponse): (Option<string>, ChatEntry) {
    if !ContentTruthy(entry.content) then (Some(AskForQuery(entry.name)), entry)
    else if entry.content.Plain? && IsTenorId(entry.content.text) then (None, entry)
    else if !entry.content.Plain? || search.Failed? then (None, entry)
    else
      var picked := FirstSource(search.results);
      var background := if picked.Some? then picked else entry.background;
      if background.None? || background.value == "" then (None, entry)
      else (None, entry.(background := background, content := NoContent, command := None))
  }

  /** `handleCommands(format)`: what the bot says (or `None`) and the updated entry. */
  function HandleCommands(entry: ChatEntry, search: TenorResponse): (Option<string>, ChatEntry) {
    if entry.command == Some("GIF") then GifCommand(entry, search)
    else if entry.command == Some("ONLYFANS") then
      (None, entry.(content := Plain(NameText(entry.name) + " is horny!"), alert := true, command := None))
    else (None, entry)
  }

  /** The bot speaks only for `!gif` without a query, and then says exactly the request for one. */
  lemma HandleCommandsSpeaks(entry: ChatEntry, search: TenorResponse)
    ensures HandleCommands(entry, search).0.Some? <==> entry.command == Some("GIF") && !ContentTruthy(entry.content)
    ensures HandleCommands(entry, search).0.Some? ==> HandleCommands(entry, search).0.value == "@" + NameText(entry.name) + " -- Please enter a search query!"
  {
  }

  /** A GIF request that succeeds: a text query, a search that answers, and a url to show. */
  predicate GifFound(entry: ChatEntry, search: TenorResponse) {
    && entry.command == Some("GIF")
    && entry.content.Plain? && entry.content.text != "" && !IsTenorId(entry.content.text)
    && search.Results?
    && (FirstSource(search.results).Some? || (entry.background.Some? && entry.background.value != ""))
  }

  /**
   * The command flag is cleared exactly on a GIF success or `!onlyfans`;
   * then the entry is shown. Name, id, colour, host and reply never change.
   */
  lemma HandleCommandsClears(entry: ChatEntry, search: TenorResponse)
    requires entry.command.Some?
    ensures HandleCommands(entry, search).1.command.None? <==> GifFound(entry, search) || entry.command == Some("ONLYFANS")
    ensures var e := HandleCommands(entry, search).1;
      e.name == entry.name && e.id == entry.id && e.color == entry.color && e.host == entry.host && e.reply == entry.reply
  {
  }

  /** A GIF success shows the first usable url as background, without text. */
  lemma GifBackground(entry: ChatEntry, results: seq<MediaFormats>, u: string)
    requires entry.command == Some("GIF") && entry.content.Plain? && entry.content.text != "" && !IsTenorId(entry.content.text)
    requires FirstSource(results) == Some(u)
    ensures HandleCommands(entry, Results(results)).1 == entry.(background := Some(u), content := NoContent, command := None)
  {
  }

  /** `handleCommands`, running the search loop over the results it is given. */
  method RunCommand(entry: ChatEntry, search: TenorResponse) returns (botspeak: Option<string>, updated: ChatEntry)
    ensures (botspeak, updated) == HandleCommands(entry, search)
  {
    botspeak, updated := None, entry;
    if entry.command == Some("GIF") {
      if !ContentTruthy(entry.content) {
        botspeak := Some("@" + NameText(entry.name) + " -- Please enter a search query!");
        return;
      }
      if entry.content.Plain? && IsTenorId(entry.content.text) {
        return;
      }
      if !entry.content.Plain? || search.Failed? {
        return;
      }
      var picked := PickGif(search.results);
      if picked.Some? {
        updated := updated.(background := picked);
      }
      if updated.background.None? || updated.background.value == "" {
        updated := entry;
        return;
      }
      updated := updated.(content := NoContent, command := None);
    } else if entry.command == Some("ONLYFANS") {
      updated := entry.(content := Plain(NameText(entry.name) + " is horny!"), alert := true, command := None);
    }
  }
}
