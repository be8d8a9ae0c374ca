# Neon chat overlay: a Dafny model

Neon is a Twitch chat overlay for OBS. Its browser client is `pages/chatbox.js`.

- It keeps a WebSocket open to Twitch's IRC server and reconnects with a growing timeout.
- It parses each IRC line and answers keep-alive pings.
- It turns chat messages into entries: a sender name, an accent colour, reply context, and text cut into text parts and emote markers.
- It reacts to the chat commands `!gif` and `!onlyfans`.
- It shows the entries in a fixed-size circular scrollback, and entries can be deleted by user or message id.

The settings page `pages/colors.js` has its own hex-to-hue helpers.

The model has one module per unit of the client:

| module | file | models |
|---|---|---|
| `Wrappers` | wrappers.dfy | `Option` |
| `JsString` | js_string.dfy | the JavaScript string built-ins the client uses, with their edge cases: `indexOf`'s -1, the clamping of `slice` and `substr`, `trim`, `split`, case mapping, `Number("0x…")` |
| `IrcMessage` | irc_message.dfy | `parseMessage` |
| `Colors` | colors.dfy | `toRGB`, `calcHue`, `closestColor` |
| `ChatColor` | chat_color.dfy | `getColorHue` and the palette index of `formatChat` |
| `Html` | html.dfy | `scrubHTML` |
| `ChatFormat` | chat_format.dfy | `formatChat` |
| `Commands` | commands.dfy | `handleCommands` |
| `Dispatch` | dispatch.dfy | `handleMessage` |
| `ChatLog` | chat_log.dfy | the `CHATLOG` scrollback, as a class over an array |
| `IrcClient` | irc_client.dfy | the `IRC` connection object, as a class driven by socket and timer events |

Code that walks cursors or loops is modelled as a method proved equal to a pure function. This covers `parseMessage`, the loops of `formatChat`, the result loop of `handleCommands`, the hash and folds of `getColorHue`, and the barrier and counting loop of `CHATLOG`. The properties are lemmas about those functions.

`CHATLOG` and `IRC` objects are classes whose methods state their whole new state as a value. The lemmas about those values (`LogState`, `IrcState`) carry the properties.

Strings are sequences of UTF-16 code units, so one `char` is one code unit. Case mapping covers ASCII letters only. Numbers in the hue arithmetic are exact reals.

The emote segmentation of `formatChat` trims every gap of text and skips the characters of each emote range. So "hello world" with emote 25 at 6-10 gives `["hello", "\!25"]`. `ChatFormat.SegmentWellPlaced` states this.

## Model

| member | source | states |
|---|---|---|
| JsString.IndexOf | pages/chatbox.js:98-99 | `indexOf` answers -1 or a position inside the string |
| JsString.IndexOfFound | pages/chatbox.js:98-99 | a non-negative answer holds the character and lies at or after the clamped start |
| JsString.IndexOfFirst | pages/chatbox.js:98-99 | no occurrence is skipped between the start and the answer (or the end, for -1) |
| JsString.IndexOfMissing | pages/chatbox.js:98-99 | with no occurrence from the start on, the answer is -1 |
| JsString.IndexOfAt | pages/chatbox.js:56 | the first occurrence at or after the start is the answer |
| JsString.Slice | pages/chatbox.js:57 | `slice` never yields more than the string |
| JsString.SliceWithin | pages/chatbox.js:57 | inside the string, `slice(start, end)` is the plain subsequence |
| JsString.SliceFrom | pages/chatbox.js:112 | `slice(start)` is `slice(start, length)` |
| JsString.Substr | pages/chatbox.js:263 | `substr` never yields more than the string |
| JsString.TrimStartSuffix | pages/chatbox.js:101 | `trimStart` leaves a suffix that does not start with white space |
| JsString.TrimEndPrefix | pages/chatbox.js:101 | `trimEnd` leaves a prefix that does not end with white space |
| JsString.TrimInside | pages/chatbox.js:101 | `trim` gives a stretch of the string with no white space at either end |
| JsString.TrimTrimmed | pages/chatbox.js:112 | a string without white space at either end is its own trim |
| JsString.Split | pages/chatbox.js:57 | `split` always gives at least one piece |
| JsString.SplitPieces | pages/chatbox.js:57 | no piece holds the separator |
| JsString.JoinSplit | pages/chatbox.js:758 | joining the pieces with the separator gives the string back |
| JsString.SplitNoSep | pages/chatbox.js:758 | a string without the separator splits into itself alone |
| JsString.SplitAt | pages/chatbox.js:758 | the text before the first separator is the first piece, and the rest splits on |
| JsString.SplitJoin | pages/chatbox.js:101 | pieces free of the separator, joined and split again, come back unchanged |
| JsString.ToUpper | pages/chatbox.js:271 | `toUpperCase` keeps the length, leaves no lower-case letter, keeps every other character, and agrees with the input up to case |
| JsString.ToLower | pages/chatbox.js:584 | `toLowerCase` keeps the length, leaves no upper-case letter, keeps every other character, and agrees with the input up to case |
| JsString.ToUpperIdempotent | pages/chatbox.js:158 | upper-casing twice is upper-casing once |
| JsString.ToLowerIdempotent | pages/chatbox.js:584-595 | lower-casing twice is lower-casing once |
| JsString.ToLowerOfUpper | pages/chatbox.js:584-595 | lower-casing an upper-cased text gives the lower-cased text |
| JsString.ToUpperOfLower | pages/chatbox.js:158 | upper-casing a lower-cased text gives the upper-cased text |
| JsString.SameCaseFolding | pages/chatbox.js:158 | two texts agree lower-cased exactly when they agree upper-cased, so the name tests of `handleMessage` and `delete` fold case alike |
| JsString.UnescapeSpaces | pages/chatbox.js:260 | replacing `\s` by a blank never lengthens the text |
| JsString.UnescapeSpacesPlain | pages/chatbox.js:260 | text without a backslash is unchanged |
| JsString.UnescapeSpacesEscaped | pages/chatbox.js:260 | a leading `\s` becomes one blank |
| JsString.HexDigitValue | pages/colors.js:8-10 | a hexadecimal digit's value is below 16 |
| JsString.HexValueTwoDigits | pages/colors.js:8-10 | two hexadecimal digits denote at most 255 |
| IrcMessage.Parse | pages/chatbox.js:48-115 | definition of `parseMessage`: tag, source, command and parameter blocks in turn; its properties are `ParseFrame`, the tag-map lemmas and the edge-case lemmas below |
| IrcMessage.ParseMessage | pages/chatbox.js:48-115 | the cursor-walking parser builds exactly the record `Parse` describes |
| IrcMessage.ReadTags | pages/chatbox.js:55-74 | the tag block: from `@` to the first space, split on `;`, each piece stored in turn, cursor after the block |
| IrcMessage.ReadSource | pages/chatbox.js:77-95 | the source block: from `:` to the next space, `nick!host` or a host |
| IrcMessage.ReadCommand | pages/chatbox.js:98-109 | the command block: to the next `:` or the end, trimmed, split on spaces into type, channel and ack |
| IrcMessage.TagMapKeys | pages/chatbox.js:62-71 | a key is in the tag map exactly when some piece names it |
| IrcMessage.TagMapLastWins | pages/chatbox.js:62-71 | a repeated key keeps the value of its last piece |
| IrcMessage.TagValueForms | pages/chatbox.js:63-67 | `k=` stores null, `k=v` stores v, a bare `k` stores undefined |
| IrcMessage.ParseFrame | pages/chatbox.js:48-115 | a well-formed line parses into the tags, source, command words and parameters it was built from |
| IrcMessage.TagBlockWithoutSpace | pages/chatbox.js:56-58 | a tag block with no space anywhere loses its last character and puts the cursor back at 0 |
| IrcMessage.ParseTagWithoutSpace | pages/chatbox.js:56-98 | after such a block there is no source, and the command block is read again from the `@` |
| IrcMessage.SourceWithTwoBangs | pages/chatbox.js:89-92 | a source with two `!` keeps only the text before the first, as host with no nick |
| IrcMessage.ParsePingExample | pages/chatbox.js:48-115 | `PING :tmi.twitch.tv` parses with no tags, no source, type PING and the server name as parameters |
| Colors.ToRgb | pages/colors.js:1-11 | `toRGB` gives channels exactly for a string of seven characters, `null` otherwise |
| Colors.CalcHue | pages/colors.js:14-36 | `calcHue`: -1 for gray, `NaN` for a `NaN` channel, else the hue of the largest channel's sextant |
| Colors.ClosestColor | pages/colors.js:39-46 | `NaN` exactly for a `NaN` hue or for a hue with zero steps; 0 exactly for a negative hue; never below 0 |
| Colors.ToRgbPairs | pages/colors.js:1-11 | a seven-character string gives the channels of its pairs at 1, 3 and 5, whatever its first character |
| Colors.ToRgbOfHex | pages/colors.js:1-11 | `toRGB` reads back the channels `#rrggbb` was written from |
| Colors.ToRgbBounded | pages/colors.js:8-10 | every channel read is at most 255 or NaN |
| Colors.MinFoldLeast | pages/colors.js:25 | the minimum fold is the least of its start value and the channels |
| Colors.MaxFoldGreatest | pages/colors.js:26 | the maximum fold is the greatest of its start value and the channels |
| Colors.CalcHueGray | pages/colors.js:14-20 | `calcHue` is -1 exactly when the three channels are equal numbers |
| Colors.CalcHueNaN | pages/colors.js:16-36 | `calcHue` is NaN exactly when a channel is NaN |
| Colors.CalcHueRange | pages/colors.js:22-36 | a hue that is not gray lies in [0, 360) |
| Colors.CalcHueSextant | pages/colors.js:31-33 | the largest channel decides the sextant, red first on ties: red [0, 60] or [300, 360), green [60, 180], blue [180, 300] |
| Colors.ClosestColorNegative | pages/colors.js:40 | any negative hue gives 0 |
| Colors.ClosestColorTwelve | pages/colors.js:39-46 | with twelve steps the index is floor((hue + 15) / 30) + 1, without wrap-around |
| Colors.ClosestColorMonotone | pages/colors.js:42-45 | a larger hue never gives a smaller index |
| Colors.ClosestColorOverflow | pages/colors.js:39-46 | any hue in [345, 360) gives 13, one past the thirteen-entry palette |
| Colors.PreviewOverflowExample | pages/colors.js:39-46 | `#ff0010` gets index 13 |
| Colors.ClosestColorWrappedRange | pages/colors.js:39-46 | the wrapped index is 0 for gray and otherwise 1 to `steps` |
| Colors.ClosestColorWrappedAgrees | pages/colors.js:39-46 | below 345 the wrapped index equals `closestColor`'s |
| Colors.ClosestColorWrappedTurns | pages/colors.js:39-46 | from 345 on, the wrapped index is 1 |
| ChatColor.ColorHue | pages/chatbox.js:423-465 | definition of `getColorHue`; its properties are `ColorHueMissing`, `ColorHueOfName`, `ColorHueRange` and `ColorHueAgreesWithCalcHue` |
| ChatColor.GetColorHue | pages/chatbox.js:423-465 | the hash loop, the number check and the two folds compute `ColorHue` |
| ChatColor.ColorHueMissing | pages/chatbox.js:424 | a missing or empty string gives -1 |
| ChatColor.ColorHueOfName | pages/chatbox.js:425-430 | a string not starting with `#` gives the sum of its code units mod 360, a whole number in [0, 360) |
| ChatColor.ColorHueRange | pages/chatbox.js:423-465 | every hue is -1 or in [0, 360) |
| ChatColor.ColorHueAgreesWithCalcHue | pages/chatbox.js:432-464 | on `#rrggbb`, `getColorHue` and the settings page's `calcHue` of `toRGB` agree on gray and on the hue |
| ChatColor.ChannelsAgree | pages/chatbox.js:459-464 | the `% 6` normalisation and `calcHue`'s `+ 360` give the same hue |
| ChatColor.PaletteIndex | pages/chatbox.js:233-243 | definition of the palette index of `formatChat`; its properties are `PaletteIndexRange` and `PaletteIndexWrapped` |
| ChatColor.PaletteIndexRange | pages/chatbox.js:233-243 | hue -1 gives entry 0; a hue in [0, 360) gives floor((hue + 15) / 30) mod 12 + 1, in 1 to 12 |
| ChatColor.PaletteIndexWrapped | pages/chatbox.js:237-241 | the overlay's index is `closestColor` with the wrap-around added |
| ChatColor.BadColorTagGray | pages/chatbox.js:226-231 | a colour tag of a length other than 7 gives gray |
| ChatColor.AccentIndexInPalette | pages/chatbox.js:226-243 | every message gets an entry of the thirteen-entry palette |
| Html.Escape | pages/chatbox.js:409-415 | the escape as written leaves no `<` or `>` |
| Html.ScrubHtml | pages/chatbox.js:407-417 | null exactly for a missing or empty string; otherwise no `<` or `>` is left |
| Html.ScrubHtmlShowsAmpersandAsLess | pages/chatbox.js:413 | `&` is escaped like `<`, so the page shows `<` for `&` |
| Html.ScrubHtmlFixed | pages/chatbox.js:407-417 | the corrected escape: null for missing or empty text, no `<` or `>` left |
| Html.DecodeEscapeFixed | pages/chatbox.js:407-417 | with `&` escaped as `&amp;`, the browser shows exactly the chat text |
| Html.ScrubHtmlFixedInjective | pages/chatbox.js:407-417 | the corrected escape keeps distinct texts distinct |
| ChatFormat.Format | pages/chatbox.js:198-324 | definition of `formatChat`; its properties are the `ChatFormat` lemmas below and `FormatChat` |
| ChatFormat.FormatChat | pages/chatbox.js:198-324 | filling the entry step by step gives `Format`, or nothing where `formatChat` throws |
| ChatFormat.FillContent | pages/chatbox.js:268-324 | the command check and emote loops give `FormatContent` |
| ChatFormat.ExtractCommandSpaced | pages/chatbox.js:268-274 | `!token rest` gives the upper-cased token and the trimmed rest |
| ChatFormat.ExtractCommandBare | pages/chatbox.js:268-274 | `!token` gives the upper-cased token and empty text |
| ChatFormat.ExtractCommandShape | pages/chatbox.js:269-271 | a command holds no space and no lower-case letter |
| ChatFormat.ReplyOffsetMention | pages/chatbox.js:262-263 | for `@name rest`, the offset is the mention's length plus one and the content is `rest` |
| ChatFormat.ReplyFields | pages/chatbox.js:255-261 | with both reply tags, host is the parent's name and reply is its body with `\s` made blanks |
| ChatFormat.NotReplyFields | pages/chatbox.js:255-264 | without both reply tags, host and reply stay unset |
| ChatFormat.CommandContent | pages/chatbox.js:268-274 | a `!command` keeps its text plain, whatever the emotes tag says |
| ChatFormat.BareBangContent | pages/chatbox.js:268-274 | a lone `!` gives the empty command and empty content |
| ChatFormat.PlainContent | pages/chatbox.js:279-283 | without an emotes tag, content that is not a command stays the plain string |
| ChatFormat.EmoteContent | pages/chatbox.js:286-321 | with an emotes tag of well-placed ranges, the content is the trimmed gaps and markers in order |
| ChatFormat.CollectEmotes | pages/chatbox.js:287-305 | the nested loops over the emotes tag build `ParseEmotes`: every occurrence in tag order, or nothing when a group has no `:` |
| ChatFormat.PushOccurrences | pages/chatbox.js:295-304 | the inner loop appends one emote's occurrences |
| ChatFormat.Occurrences | pages/chatbox.js:295-304 | one emote per occurrence, each read from its `start-end` text |
| ChatFormat.ParseEmotesShift | pages/chatbox.js:299-300 | the reply offset shifts every position down by the same amount and never changes which tags parse |
| ChatFormat.SortByStart | pages/chatbox.js:306 | sorting keeps the same emotes (a permutation) |
| ChatFormat.Insert | pages/chatbox.js:306 | one insertion step of the sort adds exactly the new emote |
| ChatFormat.InsertSorted | pages/chatbox.js:306 | inserting into a sorted list keeps it sorted |
| ChatFormat.SortByStartSorted | pages/chatbox.js:306 | with numeric positions the sorted list is in non-decreasing start order and a permutation of the input |
| ChatFormat.SegmentContent | pages/chatbox.js:310-321 | the segmentation loop pushes `Render(Segment(…))` |
| ChatFormat.PushEmote | pages/chatbox.js:312-321 | one pass pushes the trimmed gap and, except for the sentinel, the marker, and moves the cursor past the range |
| ChatFormat.SegmentTextTrimmed | pages/chatbox.js:314-315 | every text part pushed is non-empty and trimmed |
| ChatFormat.SegmentMarkers | pages/chatbox.js:318-319 | one marker per emote in list order, none for the sentinel |
| ChatFormat.SegmentWellPlaced | pages/chatbox.js:307-321 | on well-placed ranges plus the sentinel, the loop gives the trimmed text before each range, its marker, and the trimmed tail, with no character of a range |
| Commands.HandleCommands | pages/chatbox.js:328-404 | definition of `handleCommands`; its properties are `HandleCommandsSpeaks`, `HandleCommandsClears`, `GifBackground` and `RunCommand` |
| Commands.Source | pages/chatbox.js:367-375 | a url taken from a result is never empty |
| Commands.FirstSource | pages/chatbox.js:366-380 | a background found is never empty |
| Commands.SourcePreference | pages/chatbox.js:370-373 | a result's url comes from the best format offered, never a worse one |
| Commands.SourceNone | pages/chatbox.js:370-375 | a result offering none of the four formats yields nothing |
| Commands.FirstSourceEarliest | pages/chatbox.js:366-380 | the search picks url u exactly when some result yields u and every earlier result yields nothing |
| Commands.FirstSourceNone | pages/chatbox.js:366-385 | no background exactly when no result yields a url |
| Commands.PickGif | pages/chatbox.js:366-380 | the loop over the results computes `FirstSource` |
| Commands.RunCommand | pages/chatbox.js:328-404 | the command handler computes `HandleCommands` |
| Commands.HandleCommandsSpeaks | pages/chatbox.js:338-351 | the bot speaks exactly for `GIF` without a query, and then says `@name -- Please enter a search query!` |
| Commands.HandleCommandsClears | pages/chatbox.js:338-403 | the flag is cleared exactly on a GIF success or `ONLYFANS`; name, id, colour, host and reply never change |
| Commands.GifBackground | pages/chatbox.js:376-389 | a GIF success shows the first usable url as background, without text, unflagged |
| Dispatch.HandleMessage | pages/chatbox.js:119-194 | definition of `handleMessage`; its properties are the `Dispatch` lemmas below and `Handle` |
| Dispatch.Handle | pages/chatbox.js:119-194 | the handler's steps compute `HandleMessage` |
| Dispatch.PingAnswered | pages/chatbox.js:124-126 | a ping is answered with exactly `PONG :` and its parameters, and nothing is shown |
| Dispatch.OthersIgnored | pages/chatbox.js:134-192 | every other type, RECONNECT included, has no effect |
| Dispatch.NightbotIgnored | pages/chatbox.js:158 | a message from Nightbot is neither shown nor answered |
| Dispatch.GeneratedNotCommand | pages/chatbox.js:170-171 | no entry reaches the chat log while flagged as a command |
| Dispatch.PrivmsgSends | pages/chatbox.js:164-168 | a line is sent only when the command handler speaks, and it is `PRIVMSG <channel> :<reply>` |
| Dispatch.OrdinaryShown | pages/chatbox.js:153-171 | a message without a command is shown as built and nothing is sent |
| Dispatch.BareBangShown | pages/chatbox.js:164-171 | a lone `!` is not a command: the entry is shown |
| Dispatch.DetachedRejects | pages/chatbox.js:154-158 | before the chat box is found, a chat message throws |
| ChatLog.Remove | pages/chatbox.js:536-542 | definition of `_remove` on one slot; its properties are `Without` and `ChatLog.RemoveAt` |
| ChatLog.Without | pages/chatbox.js:539 | removing an element takes exactly that entry's element out of the chat box |
| ChatLog.InsertState | pages/chatbox.js:515-531 | an insert keeps the buffer size and a cursor inside it |
| ChatLog.RunIndex | pages/chatbox.js:525 | up to `size` inserts move the cursor on by their number, around the buffer |
| ChatLog.RunSlots | pages/chatbox.js:520-525 | the t-th insert lands t slots past the cursor; every other slot is unchanged |
| ChatLog.LastRound | pages/chatbox.js:520-525 | after `size` inserts the cursor is back at the first one's slot, and every other slot holds a later entry |
| ChatLog.FirstEvicted | pages/chatbox.js:515-542 | after `size + 1` inserts, no slot holds the first entry and its element has left the chat box |
| ChatLog.RunAppend | pages/chatbox.js:515-531 | one more insert is one more step of the buffer |
| ChatLog.ClearFrom | pages/chatbox.js:545-551 | clearing keeps the number of slots |
| ChatLog.ClearHides | pages/chatbox.js:545-551 | after `clear`, every slot stays occupied or empty as it was, no entry is shown, and no shown entry's element is left |
| ChatLog.ClearKeeps | pages/chatbox.js:547-550 | an element already gone stays gone |
| ChatLog.Barrier | pages/chatbox.js:562-581 | definition of `waitPending` over the polled counts; its properties are `BarrierBounds`, `BarrierSteady` and `WaitPending` |
| ChatLog.BarrierBounds | pages/chatbox.js:562-581 | one to twelve polls; true exactly at the first poll reading 0; false at a negative reading or the twelfth |
| ChatLog.BarrierSteady | pages/chatbox.js:562-581 | an unchanging count: 0 passes at once, a negative count fails at once, a positive one fails after twelve polls |
| ChatLog.WaitPending | pages/chatbox.js:562-581 | the polling loop computes `Barrier` |
| ChatLog.Scan | pages/chatbox.js:584-598 | the scan of `delete` keeps the number of slots; its other properties are `ScanKeepsEntries`, `ScanEarlier`, `ScanNamed` and `ScanEffect` |
| ChatLog.ScanKeepsEntries | pages/chatbox.js:584-598 | the scan never fills, empties or moves a slot, nor changes an entry |
| ChatLog.ScanEarlier | pages/chatbox.js:585 | the scan leaves the slots before its start alone |
| ChatLog.ScanNamed | pages/chatbox.js:590 | a scan that reaches the end met only named entries |
| ChatLog.ScanEffect | pages/chatbox.js:584-598 | a completed scan hides every entry picked by lower-cased name or by id, marks the replies to the user, and leaves all others as they were |
| ChatLog.EmoteCount | pages/chatbox.js:643-648 | there are never more emotes than parts |
| ChatLog.EmoteCountAll | pages/chatbox.js:643-648 | every part is an emote exactly when the emote count is the number of parts |
| ChatLog.Classify | pages/chatbox.js:634-683 | definition of the class `generate` gives an entry; its properties are `EmoteOnlyMeans`, `ReactMeans` and `ChatLog.Generate` |
| ChatLog.EmoteOnlyMeans | pages/chatbox.js:661 | `emoteonly` exactly when there is content and every part is an emote |
| ChatLog.ReactMeans | pages/chatbox.js:675-683 | the `react` box is for an entry that is no alert, has no background and holds at most eight emotes and no text |
| ChatLog.CountParts | pages/chatbox.js:634-659 | the counting loop gives the text and emote counts |
| ChatLog.Items | pages/chatbox.js:643-656 | one element per part, in order: an image of the part's emote exactly for a `\!` part, otherwise a text span that is absent only for the empty part and shows exactly the part's text |
| ChatLog.ItemsCounted | pages/chatbox.js:643-656 | the elements hold as many images as the counting loop counts emotes, and as many text spans as it counts texts |
| ChatLog.RenderAt | pages/chatbox.js:315-319 | a text piece is pushed as its text, an emote as `\!` and its id |
| ChatLog.ItemsOfPieces | pages/chatbox.js:643-656 | an emote placed by the formatter becomes the image of its id; text becomes escaped text, unless it starts with `\!` |
| ChatLog.ChatLog.constructor | pages/chatbox.js:475-480 | no array, no chat box, cursor and pending count 0 |
| ChatLog.ChatLog.Init | pages/chatbox.js:482-488 | a size below one changes nothing; otherwise old elements are cleared and `s` empty slots made, cursor 0 |
| ChatLog.ChatLog.Attach | pages/chatbox.js:490-511 | the chat box turns up; nothing else changes |
| ChatLog.ChatLog.Insert | pages/chatbox.js:515-531 | without the chat box only the pending count drops; otherwise the buffer step `InsertState` |
| ChatLog.ChatLog.RemoveAt | pages/chatbox.js:536-542 | the answer is whether the entry was shown; only its element goes, the slot stays occupied |
| ChatLog.ChatLog.Clear | pages/chatbox.js:545-551 | once the buffer exists, the cursor goes to 0 and every element leaves the chat box |
| ChatLog.ChatLog.Delete | pages/chatbox.js:558-599 | once the buffer exists, the barrier's answer, then the scan's effect, whatever the barrier answered; the object stays valid |
| ChatLog.ChatLog.Generate | pages/chatbox.js:604-712 | the entry's class is `Classify`; the pending count goes up and the insert brings it back down |
| IrcClient.Reinit | pages/chatbox.js:736-739 | `_init` closes the current socket, if any, and makes current a socket never closed nor written to; timeout, reconnection, timers and lines sent are unchanged; a sane state stays sane |
| IrcClient.StartSane | pages/chatbox.js:715-719 | the connection starts sane: no socket, none closed |
| IrcClient.ConnectedSane | pages/chatbox.js:801-804 | `connect` keeps the state sane |
| IrcClient.DisconnectedSane | pages/chatbox.js:806-809 | `disconnect` keeps the state sane |
| IrcClient.OpenedSane | pages/chatbox.js:767-777 | the `open` of a live socket keeps the state sane |
| IrcClient.ErroredSane | pages/chatbox.js:742-754 | the `error` of a created socket keeps the state sane |
| IrcClient.ClosedSane | pages/chatbox.js:780-798 | a `close` keeps the state sane |
| IrcClient.FiredSane | pages/chatbox.js:789-797 | a retry timer keeps the state sane |
| IrcClient.Opened | pages/chatbox.js:767-777 | definition of the `open` handler; its properties are `OpenCurrent`, `OpenIsCurrent` and `OpenedSane` |
| IrcClient.Errored | pages/chatbox.js:742-754 | definition of the `error` handler; its property is `ErroredSane` |
| IrcClient.Closed | pages/chatbox.js:780-798 | definition of the `close` handler; its properties are `GivesUpAfter`, `DisconnectStops` and `ClosedSane` |
| IrcClient.Fired | pages/chatbox.js:789-797 | definition of the retry timer; its properties are `RetriesGoOn`, `DisconnectRace` and `FiredSane` |
| IrcClient.Backoff | pages/chatbox.js:790 | the timeout is never below one second |
| IrcClient.BackoffGrows | pages/chatbox.js:790 | more retries never give a shorter timeout |
| IrcClient.BackoffLimit | pages/chatbox.js:781 | the timeout after eleven growths is within 100000, after twelve beyond it |
| IrcClient.RetriesGoOn | pages/chatbox.js:780-798 | while within patience, each close and timer makes a new socket and grows the timeout; nothing is sent |
| IrcClient.GivesUpAfter | pages/chatbox.js:781-786 | once the timeout has grown twelve times, the next close gives up and resets |
| IrcClient.ThirteenthCloseGivesUp | pages/chatbox.js:780-798 | with no open between, twelve closes are retried and the thirteenth turns reconnection off with the timeout back to one second |
| IrcClient.OpenCurrent | pages/chatbox.js:767-777 | opening the current socket resets the timeout and sends PASS, NICK, JOIN and the two CAP REQ lines, in order, all on it |
| IrcClient.OpenIsCurrent | pages/chatbox.js:737-738 | in a sane state, a created socket not yet closed is the current one, so the socket that opens is the one `self.sock` names |
| IrcClient.OpenResets | pages/chatbox.js:769 | after an open, the next retries start again from one second |
| IrcClient.DisconnectStops | pages/chatbox.js:806-809 | after `disconnect`, the next close schedules nothing |
| IrcClient.DisconnectRace | pages/chatbox.js:789-797 | a retry already scheduled still makes a new socket after `disconnect` |
| IrcClient.ConnectTwice | pages/chatbox.js:801-804 | calling `connect` twice closes the first socket; its close schedules a retry whose `_init` closes the second socket and makes a third current |
| IrcClient.Frames | pages/chatbox.js:758-763 | no more messages than lines |
| IrcClient.FramesAppend | pages/chatbox.js:758-763 | the lines are handled in order, each on its own |
| IrcClient.FirstLine | pages/chatbox.js:758-763 | the first line of a message is handled before the lines after it |
| IrcClient.SingleLine | pages/chatbox.js:758-763 | a message without a line break is one frame, or none when empty |
| IrcClient.Client.constructor | pages/chatbox.js:715-719 | no socket, one-second timeout, no reconnection |
| IrcClient.Client.Init | pages/chatbox.js:736-739 | the state becomes `Reinit` of the old one |
| IrcClient.Client.Connect | pages/chatbox.js:801-804 | `_init`, then reconnection on |
| IrcClient.Client.Disconnect | pages/chatbox.js:806-809 | reconnection off and the current socket closed |
| IrcClient.Client.OnOpen | pages/chatbox.js:767-777 | the `open` of a live socket resets the timeout and sends all five lines on that socket; the object stays valid |
| IrcClient.Client.OnError | pages/chatbox.js:742-754 | the erring socket is closed; the object stays valid |
| IrcClient.Client.OnClose | pages/chatbox.js:780-798 | a retry timer is set exactly when reconnection is on and the timeout is within 100000, with the old timeout as its delay |
| IrcClient.Client.OnTimer | pages/chatbox.js:789-797 | the timeout grows by half and `_init` runs, whether reconnection is on or not |
| IrcClient.Client.OnLine | pages/chatbox.js:758-763 | an empty line is skipped, any other is parsed |
| IrcClient.Client.OnMessage | pages/chatbox.js:757-764 | every non-empty line of the message is parsed, in order |

## Left out

- Network: `tenorSearch` and `tenorPosts` are HTTP fetches. The search answer is an input of the model (`TenorResponse`), and the id lookup is never reached.
- `TENORKEY` is a non-empty constant, so the missing-key branch of the GIF rule cannot be taken and is not modelled.
- WebSocket and timers: sockets are numbers. The open, error, close and timer events are method calls made from outside. Sending a line is recorded in `sent`, and closing a socket in `closed`. Close events do not say which socket closed, as in the code.
- `IrcClient.Client.OnOpen` requires a socket that has been created and not closed, since the browser fires `open` only for such a socket; `IrcClient.Client.OnError` requires a created socket. That a socket opens at most once is not modelled.
- Socket readiness: a `send` on a socket still connecting throws in the browser. The model only sends from `open`, on the socket that opened, so that throw is not modelled.
- Crashes before `_init`: `clear` and `delete` read the buffer, which is null until `_init` runs, and throw. `ChatLog.ChatLog.Clear` and `ChatLog.ChatLog.Delete` require the buffer to exist instead.
- Concurrency: `handleMessage` is asynchronous and awaits the search. The model handles one message at a time, to completion.
- `ChatLog.ChatLog.Delete`: the scan runs on the state at the time of the call. Entries generated while the barrier waits are not modelled. The pending counts read by the polls are an input.
- `ChatLog.ChatLog.Generate`: the element tree, titles, CSS variables, the name and host spans and the background element are left out. The model keeps the entry, whether its element is in the chat box, and the class it gets.
- `ChatLog.ItemOf` uses the corrected `scrubHTML` (see Findings). The reply line is kept only as "shown or redacted".
- DOM: the MutationObserver lookup in `_init` becomes the `Attach` event. Logging is left out everywhere.
- Crashes in `delete`: a call with `user` null throws in the JavaScript. The model takes `user` as a string, so that case is not covered.
- Crashes elsewhere: a throw inside `formatChat` or `handleCommands` is modelled as `Rejected` or `None`.
- `String.replace` patterns: in the PONG line, the bot's reply and the query prompt, a `$` sequence inside the substituted text is expanded by JavaScript. The model uses plain concatenation.
- `Number` on emote positions: only blank and decimal text are read. Other forms that `Number` accepts, such as `1e3` or `0x1f`, are read as NaN.
- `ChatFormat.SortByStart`: with a NaN position, the comparator is inconsistent and JavaScript fixes no order. The model is a stable insertion sort, which is one order an engine may produce. Sortedness is proved only for numeric positions.
- Floating point: the hue arithmetic uses exact reals. At exact half-step boundaries, a browser's rounding may pick the neighbouring palette entry.
- Text: non-BMP characters count as one `char` here, but as two code units in JavaScript. Case mapping covers ASCII letters only.
- The `raw` flag and the WHISPER and USERNOTICE logging are left out.
- `IrcClient.Client.OnMessage` returns the parsed messages. What is done with each is `Dispatch.HandleMessage`.
- `setColor` and `preview` in `pages/colors.js` only touch the page. `initChatbox` is left out.
- `server.py` and `pubsub.py` (the OBS plugin and a PubSub client loop) are not part of this model.

## Findings

| source | as written | input that shows it | evidently intended | confidence | as-written member | corrected member |
|---|---|---|---|---|---|---|
| pages/colors.js:39-46 | `closestColor` returns floor((hue + step / 2) / step) + 1 with no wrap-around | hue 350 (or `#ff0010`, hue 356.2...) gives 13, and the palette of `setColor` has entries 0 to 12 | wrap modulo `steps`, as the overlay does at pages/chatbox.js:241, so the hues from 345 on go back to red | not executed | Colors.ClosestColorOverflow | Colors.ClosestColorWrappedRange |
| pages/chatbox.js:413 | `scrubHTML` escapes `&` as `&lt;` | chat text `a & b` is shown as `a < b` | `&` escaped as `&amp;`, so that the page shows the text as typed | not executed | Html.ScrubHtmlShowsAmpersandAsLess | Html.DecodeEscapeFixed |

The corrected colour rule is `Colors.ClosestColorWrapped`, proved equal to the overlay's own palette rule by `ChatColor.PaletteIndexWrapped`. The corrected escape is `Html.ScrubHtmlFixed`, and `ChatLog` uses it for message text.
