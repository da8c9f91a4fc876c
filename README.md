# WhatsApp group administration bot — a Dafny model

The bot watches the messages of WhatsApp groups and private chats. It does four things:

- It enforces mutes: a muted sender's message is deleted, and the sender is warned.
- It enforces moderation rules per group: images, stickers, banned phrases and links.
- It runs prefixed commands. Admin commands cover kick, ban, unban, mute, unmute, promote and demote. There are also moderation settings, an interactive menu, help and a few fun replies.
- It persists per-group settings in a JSON store file.

This project models the decision and data logic of that bot and proves what it promises.

- **Identifiers and message fields** (`Jid`, `Message`, `Text`, `Seqs`, `Wrappers`).
  - The user and group id classification and `normalizeUserJid`.
  - The unwrapping of nested message wrappers.
  - The priority-ordered extraction of text, context, mentions, quoted author and reply id.
- **Parsers** (`Parse`, `Fun`, `Core`). Command lines, duration tokens and their Arabic rendering, on/off words, phone-number targets, target-source priority, dice specs, uptime formatting and the `menu` key mapping.
- **The store** (`JsonValue`, `Normalize`, `Storage`).
  - The document is a small JSON datatype, normalised exactly as `normalize.js` does.
  - `Storage.Store` is a class that holds the document (`data`) and the last document written to the file (`saved`).
  - Each accessor and mutator is a method proved against a function of the old document, with its counts.
  - "Writes only when something changed" is a statement about `saved`.
- **Group admin service** (`GroupAdmin`). A class over the TTL-bounded metadata cache, the three-valued admin lookup, the bot id, and target sanitisation.
- **Enforcers** (`Actions`, `ContentRules`, `Enforcers`, `Throttle`).
  - Outbound effects are `Action` records.
  - Moderation picks the first matching rule, then runs the delete-gated, cooldown-gated effect sequence.
  - The warning and command cooldown maps are the fields of `Throttle.Throttle`.
- **Router and menu** (`Router`, `Menu`, `Commands`, `Help`).
  - `Router.CommandRouter.Handle` is the early-exit pipeline of `handle`. Its possible ends are described by the `Exit` function `ExitOf`.
  - `Menu.Manager` is the TTL-bounded navigation state.
  - `Help.RenderHelp` renders the categorised command list.
- **Command handlers** (`AdminCommands`, `ModerationCommands`, `Core`). Argument checks, sub-command dispatch, the ok/failed partition of group actions, and the replies each one chooses.

Effects from outside become parameters:

- `Net` gives the connection's answers for one message: group metadata, the outcome of each send, delete and participant update, the sent message id, and the bot's user id.
- `now` is the clock reading for one operation.
- `LoadOutcome` is the result of reading the store file.
- A `LinkMatcher` stands for the link regular expression.

Reply texts are `Reply` kinds. The fixed strings are kept where a property names them: the denials and the anti-link confirmation.

## Model

| member | source | states |
|---|---|---|
| Text.Trim | src/commands/utils/jid.js:13 | `String.prototype.trim`: the result is no longer than the input, has no white space at either end, and is empty exactly when the input is all white space |
| Text.TrimOfTrimmed | src/commands/utils/jid.js:13 | trimming a trimmed string changes nothing |
| Text.Lower | src/commands/utils/jid.js:20 | `toLowerCase` (ASCII letters): same length, each character lowered |
| Text.LowerIdempotent | src/commands/utils/jid.js:20 | lowering twice is lowering once |
| Text.LowerAppend | src/commands/utils/jid.js:20 | lowering distributes over concatenation |
| Text.IndexOf | src/commands/utils/jid.js:16-17 | `indexOf` of a character: nothing iff the character is absent; otherwise its first position |
| Text.BeforeFirst | src/commands/utils/jid.js:21 | `split(':')[0]`: a prefix of the input that holds no separator, the whole input when there is no separator, otherwise the part up to the first separator |
| Text.Words | src/commands/utils/parse.js:13 | `split(/\s+/)` of a trimmed text: every piece is a non-empty word without white space |
| Text.WordsOfJoin | src/commands/utils/parse.js:13-18 | splitting words joined by single spaces gives the words back |
| Text.Collapse | src/storage/normalize.js:7 | `replace(/\s+/g, ' ')`: empty iff the input is, keeps a non-space first and last character, turns a leading or trailing run into one space, and leaves no two white-space characters side by side |
| Text.CollapseAllSpace | src/storage/normalize.js:7 | collapsing keeps a text all white space exactly when it was |
| Text.CollapseOfSingleBlanks | src/storage/normalize.js:7 | a text with single blanks only is its own collapse |
| Text.NatToString | src/commands/utils/jid.js:39 | the decimal numeral of a number: non-empty digits whose value is the number, without a leading zero |
| Text.NatToStringRoundTrip | src/commands/utils/jid.js:39 | reading the numeral back gives the number |
| Text.DigitsOnly | src/commands/utils/parse.js:83 | `replace(/\D/g, '')`: only digits, no longer than the input |
| Text.DigitsOnlyOfDigits | src/commands/utils/parse.js:83 | a string of digits is kept whole |
| Jid.GroupAndUserDisjoint | src/commands/utils/jid.js:1-9 | no identifier is both a group JID (`@g.us`) and a user JID (`@s.whatsapp.net` or `@lid`) |
| Jid.NormalizeUserJid | src/commands/utils/jid.js:11-29 | blank input and input without `@` give nothing; any result is canonical: trimmed, a user JID, a non-empty user part without `:`, a non-empty lower-case server |
| Jid.NormalizeFixesCanonical | src/commands/utils/jid.js:11-29 | normalisation returns an identifier unchanged exactly when it is already canonical |
| Jid.NormalizeIdempotent | src/commands/utils/jid.js:11-29 | normalising a normalised JID gives it back |
| Jid.NormalizeDropsDevice | src/commands/utils/jid.js:19-21 | a `:device` suffix of the user part is dropped: `u:d@s` normalises as `u@s` |
| Jid.NormalizeLowersServer | src/commands/utils/jid.js:20-28 | the server part is lower-cased and the result is `user@lower(server)` |
| Jid.NormalizeAll | src/commands/utils/jid.js:33 | normalising a list and dropping failures gives a list no longer than the input, all canonical |
| Jid.NormalizeAllAppend | src/commands/utils/jid.js:33 | normalising a list distributes over concatenation |
| Jid.NormalizeAllSomes | src/commands/utils/jid.js:33 | the normalised list is the successful results of normalising each element, in order |
| Jid.NormalizeAllOfCanonical | src/commands/utils/jid.js:33 | a list of canonical JIDs normalises to itself |
| Jid.NormalizeAllMembers | src/commands/utils/jid.js:33 | an identifier is in the normalised list iff some input element normalises to it |
| Jid.UserIds | src/commands/utils/jid.js:34 | one non-empty user id per normalised JID, its part before `@` |
| Jid.FormatJids | src/commands/utils/jid.js:31-40 | empty text when there are no ids; up to `limit` ids joined by `, `; beyond that the first `limit` ids and ` ... (+n)` with n the number left over |
| Jid.JidMentionTag | src/commands/utils/jid.js:42-46 | empty iff the input does not normalise; otherwise `@` followed by the normalised user id |
| Message.Unwrap | src/commands/utils/message.js:3-11 | peels ephemeral and view-once wrappers until none is left; a message without a wrapper is returned as it is |
| Message.UnwrapIdempotent | src/commands/utils/message.js:3-11 | unwrapping an unwrapped message changes nothing |
| Message.UnwrapThroughWrapper | src/commands/utils/message.js:5-9 | a message whose first present wrapper (in the source's order) holds `inner` unwraps as `inner` does |
| Message.FirstTruthy | src/commands/utils/message.js:17-27 | the `a \|\| b \|\| …` chain: nothing iff no candidate is a non-empty string, otherwise the first candidate that is |
| Message.ExtractText | src/commands/utils/message.js:13-28 | no message gives no text; any text found is non-empty |
| Message.ExtractTextConversation | src/commands/utils/message.js:17-21 | with no button, template or list reply selected, a plain conversation text is the text |
| Message.ExtractTextButtonFirst | src/commands/utils/message.js:18 | a selected button id wins over every other text field |
| Message.ExtractContextInfo | src/commands/utils/message.js:30-41 | the context info of the first of the extended text, image, video and document parts that has one, in that order; none exactly when none of them has one |
| Message.NormalizeEntries | src/commands/utils/message.js:47 | the normalised mention list is canonical and no longer than the raw one |
| Message.NormalizeEntriesMembers | src/commands/utils/message.js:47 | a JID is mentioned iff some raw mention entry normalises to it |
| Message.NormalizeEntriesAllMembers | src/commands/utils/message.js:47 | the membership of every JID at once: listed iff some raw entry normalises to it |
| Message.ExtractMentions | src/commands/utils/message.js:43-48 | all mentions are canonical; a missing context or a missing mention array gives none; otherwise a JID is mentioned iff some entry of the context's `mentionedJid` normalises to it |
| Message.ExtractQuotedParticipant | src/commands/utils/message.js:50-53 | nothing exactly when there is no context info, no `participant` or one that does not normalise; otherwise the canonical normalised `participant` |
| Message.GetReplyStanzaId | src/commands/utils/message.js:55-59 | nothing iff there is no context, no stanza id or only white space; otherwise the trimmed, non-empty stanza id |
| ContentRules.SearchTextShape | src/commands/utils/moderation.js:3-8 | normalised search text is trimmed, has single blanks, is lower case, and is empty iff the input is all white space |
| ContentRules.SearchTextFixpoint | src/commands/utils/moderation.js:3-8 | a trimmed text with single blanks normalises to its lower-case form |
| ContentRules.FirstHit | src/commands/utils/moderation.js:21-25 | the first needle from position i that is non-empty and occurs in the text, or nothing iff none does |
| ContentRules.FindBannedWord | src/commands/utils/moderation.js:17-28 | a blank message matches nothing; a result is a non-empty normalised banned word contained in the normalised text, and every earlier word misses; nothing iff every word misses |
| ContentRules.DetectMedia | src/commands/utils/moderation.js:30-37 | no message has no media; otherwise image and sticker flags are exactly the presence of those parts in the unwrapped message |
| ContentRules.FindFirstLink | src/commands/utils/moderation.js:10-15 | empty text has no link; otherwise a link is found iff the pattern matches, and it is the text at the match position |
| ContentRules.FoundLinkIsSubstring | src/commands/utils/moderation.js:13-14 | a found link is a substring of the text |
| Parse.ParseCommand | src/commands/utils/parse.js:4-21 | no command iff the text is blank, does not start with the prefix, or has nothing after it; a command's name is one lower-case word, its arguments are words, and the raw arguments are the arguments joined by single spaces |
| Parse.ParseCommandOfRendered | src/commands/utils/parse.js:4-21 | parsing `prefix name arg…` (lower-case name) gives back exactly that name and those arguments |
| Parse.DurationOf | src/commands/utils/parse.js:28-53 | a duration iff the text is 1 to 6 digits with a positive value followed by one of `smhdw`; its count is the value of the digits, its unit the last letter, its milliseconds the count times the unit, and `tooLarge` says whether they exceed 365 days |
| Parse.ParseDurationToken | src/commands/utils/parse.js:23-54 | the same test, count and unit on the trimmed, lower-cased token |
| Parse.DurationRoundTrip | src/commands/utils/parse.js:23-54 | rendering a count below a million and a unit as a token parses back to that count and unit, with milliseconds count × unit |
| Parse.RenderDuration | src/commands/utils/parse.js:56-69 | empty iff there is no duration; otherwise exactly the count's decimal numeral, a space and the unit's Arabic label, so the text before the first blank reads back as the count |
| Parse.ParseOnOff | src/commands/utils/parse.js:71-80 | true iff the trimmed, lower-cased word is one of the on-words, false iff it is one of the off-words, nothing otherwise |
| Parse.OnOffDisjoint | src/commands/utils/parse.js:77-78 | no word is both an on-word and an off-word |
| Parse.ParseOnOffWords | src/commands/utils/parse.js:77-78 | each listed on-word parses to true and each off-word to false |
| Parse.NormalizePhoneTarget | src/commands/utils/parse.js:82-87 | a target iff the input has 6 to 20 digits; it is those digits at `@s.whatsapp.net`, canonical |
| Parse.PhoneTargetOfDigits | src/commands/utils/parse.js:82-87 | a number with 6 to 20 digits, with or without a leading `+`, becomes that number's phone JID |
| Parse.PhoneTargets | src/commands/utils/parse.js:100-104 | the phone targets of the arguments are canonical |
| Parse.TargetsOf | src/commands/utils/parse.js:89-111 | targets are canonical and without duplicates; there is a source iff there are targets |
| Parse.TargetsPriority | src/commands/utils/parse.js:89-111 | mentions win (the same set of JIDs); with no mention a quoted participant is the only target, from a reply; numbers are used only when there is neither, and give the same set as the phone targets |
| Parse.TargetsIgnoreArgs | src/commands/utils/parse.js:90-98 | when there are mentions or a quoted participant the arguments make no difference |
| Parse.ResolveTargets | src/commands/utils/parse.js:89-111 | the loop over arguments computes `TargetsOf` |
| JsonValue.LookupSpec | src/storage/normalize.js:53 | looking a key up in an object finds nothing iff no entry has that key, otherwise the value of its first entry |
| JsonValue.LookupAppend | src/storage/normalize.js:53 | lookup in joined entry lists prefers the first list |
| JsonValue.StringToNumber | src/storage/normalize.js:45 | `Number` of a string of decimal digits is its value |
| JsonValue.NumberOfRendered | src/storage/normalize.js:45 | a number written as a decimal string reads back as itself |
| Normalize.NormalizeBannedWord | src/storage/normalize.js:4-8 | nothing iff the value is all white space; otherwise a phrase: trimmed, non-empty, single blanks |
| Normalize.BannedWordOfPhrase | src/storage/normalize.js:4-8 | a phrase is its own normal form |
| Normalize.BannedWordIdempotent | src/storage/normalize.js:4-8 | normalising a banned word twice is normalising it once |
| Normalize.Phrases | src/storage/normalize.js:29-31 | one normalised phrase (or nothing) per list element |
| Normalize.PhrasesArePhrases | src/storage/normalize.js:29-31 | every normalised element is a phrase |
| Normalize.UniqValid | src/storage/normalize.js:25-39 | the kept words are phrases whose lower-case keys are all different |
| Normalize.UniqSound | src/storage/normalize.js:25-39 | every kept word is the normal form of some list element |
| Normalize.UniqComplete | src/storage/normalize.js:25-39 | the key of every element that normalises is among the keys of the kept words |
| Normalize.UniqStep | src/storage/normalize.js:29-36 | one loop step: skip an element that does not normalise or whose key was seen, otherwise append it |
| Normalize.UniqWordsOfValid | src/storage/normalize.js:25-39 | a list of phrases with distinct keys is kept as it is |
| Normalize.UniqBannedWords | src/storage/normalize.js:25-39 | the loop with its seen-set computes the specification `UniqWords` |
| Normalize.NormalizeWelcomeTemplate | src/storage/normalize.js:10-15 | an empty text (after CRLF→LF and trim) gives the default template; otherwise the text cut to at most 2000 characters; never empty, never over 2000 |
| Normalize.DefaultTemplateShape | src/storage/constants.js:3-5 | the default template is non-empty and within the 2000-character bound |
| Normalize.TemplateOfStable | src/storage/normalize.js:10-15 | a template already trimmed, without CRLF and within bounds is kept |
| Normalize.TemplateNotIdempotent | src/storage/normalize.js:11 | a single CRLF pass is not idempotent: `a\r\r\nb` becomes `a\r\nb`, which becomes `a\nb` |
| Normalize.JsonJidsMembers | src/storage/normalize.js:22 | a JID is kept iff some string element normalises to it |
| Normalize.JsonJidsCanonical | src/storage/normalize.js:22 | the kept JIDs are canonical |
| Normalize.JsonJidsOfStrings | src/storage/normalize.js:22 | on strings it is `normalizeUserJid` mapped and filtered |
| Normalize.JidList | src/storage/normalize.js:21-23 | `normalizeAllowlist`: canonical JIDs without duplicates |
| Normalize.JidListOfValid | src/storage/normalize.js:21-23 | a canonical list without duplicates is kept as it is |
| Normalize.NormalizeMuteEntry | src/storage/normalize.js:41-60 | null or an object without `until` mutes for ever; a number or string mutes until that instant only if it is in the future; other values (booleans) are dropped |
| Normalize.FutureInstant | src/storage/normalize.js:46-47 | an instant is kept iff it is after now |
| Normalize.MuteEntryReadBack | src/storage/normalize.js:41-60 | a stored `until` reads back as itself while in the future or unbounded, and as dropped once past |
| Normalize.PutMuteJids | src/storage/normalize.js:73 | `out[jid] = entry`: keeps key order when the JID is present and appends it otherwise |
| Normalize.PutMuteLookup | src/storage/normalize.js:73 | after the assignment the JID maps to the entry and other JIDs are unchanged |
| Normalize.DeleteMute | src/storage/store.js:306 | removing a JID's entry never lengthens the map |
| Normalize.DeleteMuteSpec | src/storage/store.js:306 | removing takes the JID out of the keys and out of the lookup, leaving the others |
| Normalize.EntryOf | src/storage/normalize.js:66-73 | a kept entry has a canonical key and a future (or no) end |
| Normalize.NormalizeMuteMap | src/storage/normalize.js:62-77 | the normalised mute map has canonical distinct keys and only live entries |
| Normalize.MutesExpire | src/storage/normalize.js:62-77 | re-normalising a stored mute map at a later time keeps exactly the entries still running |
| Normalize.MutesRoundTrip | src/storage/normalize.js:62-77 | a valid live mute map, stored and normalised at the same time, comes back unchanged |
| Normalize.CollectMutes | src/storage/normalize.js:62-77 | the loop over the entries computes `NormalizeMuteMap` |
| Normalize.EnsureModeration | src/storage/normalize.js:86-98 | a missing or non-object moderation block gives the defaults (filters off, both exemptions on) |
| Normalize.ModerationRoundTrip | src/storage/normalize.js:86-98 | a stored moderation block reads back as itself |
| Normalize.ModerationOfFlags | src/storage/normalize.js:90-95 | each flag is the stored boolean or its own default |
| Normalize.EnsureWelcome | src/storage/normalize.js:100-108 | the template is always non-empty and within 2000 characters; a missing block is off with the default template |
| Normalize.WelcomeRoundTrip | src/storage/normalize.js:100-108 | a stored welcome block reads back with its template normalised again |
| Normalize.NormalizeGroup | src/storage/normalize.js:110-127 | `ensureGroup`'s repair yields a valid group (canonical distinct bans, phrase banned words with distinct keys, bounded template) whose mutes are live |
| Normalize.GroupRoundTrip | src/storage/normalize.js:110-127 | a valid live group, stored and repaired at the same time, comes back with only its template re-normalised |
| Normalize.GroupReadBack | src/storage/normalize.js:110-127 | repaired at a later time, a stored group loses only its expired mutes (and re-normalises its template) |
| Normalize.GroupStable | src/storage/normalize.js:110-127 | a valid live group with a stable template survives storage unchanged |
| Normalize.EntriesMap | src/storage/normalize.js:81 | the groups object as a map: a key is present iff the object has it, with its first value |
| Normalize.NormalizeStoreData | src/storage/normalize.js:79-84 | the version is always 5, the allowlist canonical without duplicates; a missing or non-object value gives an empty store |
| Normalize.ArrayGroupsReadEmpty | src/storage/normalize.js:81 | a document whose `groups` is an array holds no group in memory; its allowlist is read as usual |
| Storage.WelcomeAt | src/storage/store.js:338-344 | welcome settings exist exactly for group identifiers |
| Storage.Incoming | src/storage/store.js:67-69 | the users named, normalised and without duplicates |
| Storage.IncomingMembers | src/storage/store.js:67-69 | a JID is incoming iff some raw entry normalises to it |
| Storage.AddedSpec | src/storage/store.js:62-83 | after adding, the list keeps its old entries in front, has no duplicates, holds exactly the old and the named users, and grew by the number of named users that were new |
| Storage.RemovedSpec | src/storage/store.js:85-104 | after removing, the list holds exactly the old users not named, without duplicates, and shrank by the number of named users that were listed |
| Storage.ListedAfterChange | src/storage/store.js:55-60 | a user just added is allowlisted and a user just removed is not |
| Storage.RemoveAfterAdd | src/storage/store.js:62-104 | removing the users just added leaves what removing them from the old list leaves |
| Storage.AppendNew | src/storage/store.js:71-80 | the loop over new users appends those not yet present and counts them |
| Storage.DeleteAll | src/storage/store.js:94-101 | the loop deletes the named users and counts the deletions |
| Storage.AddAllLookup | src/storage/store.js:201-218 | after muting, each incoming user has the new end and everyone else keeps theirs |
| Storage.AddAllJids | src/storage/store.js:201-218 | muting keeps the existing keys in order and appends the new users |
| Storage.PutMuteSame | src/storage/store.js:209-214 | re-muting with the same end changes nothing |
| Storage.AddAllValid | src/storage/store.js:201-218 | muting keeps the map's keys canonical and distinct |
| Storage.RemoveAllLookup | src/storage/store.js:237-241 | after unmuting, the incoming users have no entry and the others keep theirs |
| Storage.RemoveAllJids | src/storage/store.js:237-241 | unmuting removes exactly the incoming users from the keys |
| Storage.RemoveAllValid | src/storage/store.js:237-241 | unmuting keeps the map valid |
| Storage.PutAll | src/storage/store.js:196-218 | the mute loop computes `AddAll`, counts as added the users without an entry and as updated those whose end changed |
| Storage.DeleteMutes | src/storage/store.js:233-241 | the unmute loop computes `RemoveAll` and counts the entries removed |
| Storage.MuteStatusOf | src/storage/store.js:165-177 | muted iff there is an entry that has not ended at the reading time, with that entry's end; otherwise not muted and no end |
| Storage.MuteOfRunning | src/storage/normalize.js:124 | the running part of a mute map keeps an entry iff it is still alive |
| Storage.MutedAfterAdd | src/storage/store.js:180-222 | a user just muted until a future time (or for ever) reads back as muted with that end |
| Storage.UnmutedAfterRemove | src/storage/store.js:224-245 | a user just unmuted reads back as not muted |
| Storage.FlagNames | src/storage/store.js:269-278 | the six known flag names and the flag keys correspond one to one |
| Storage.SetFlag | src/storage/store.js:280 | setting a flag gives it the value and leaves the other five |
| Storage.FlagsDetermine | src/storage/normalize.js:86-98 | the six flags determine the moderation settings |
| Storage.WithoutMembers | src/storage/store.js:329 | the filter keeps exactly the phrases whose lower-case form differs from the needle |
| Storage.WithoutSpec | src/storage/store.js:327-332 | removing keeps the list valid, drops exactly the phrases equal to the needle ignoring case (one at most), and changes nothing when none matches, so the final `uniqBannedWords` is the identity |
| Storage.ValidWordsSnoc | src/storage/store.js:313-314 | appending a phrase whose key is new keeps the list valid, so the final `uniqBannedWords` is the identity |
| Storage.GroupAtPut | src/storage/normalize.js:110-127 | reading back a group just written gives it with its template re-normalised and its expired mutes gone; other groups are untouched |
| Storage.PutGroupTwice | src/storage/store.js:45-48 | writing a group twice keeps the second write |
| Storage.Loaded | src/storage/store.js:22-36 | a missing or unreadable file loads as the empty store |
| Storage.Store.Load | src/storage/store.js:18-36 | a new store holds the normalised file contents and has written nothing |
| Storage.Store.Flush | src/storage/store.js:45-48 | the document is written as it is |
| Storage.Store.EnsureGroup | src/storage/normalize.js:110-127 | a group id gets its repaired settings written back; anything else gets nothing and changes nothing |
| Storage.Store.ListAllowlist | src/storage/store.js:50-53 | the allowlist, canonical and without duplicates |
| Storage.Store.AddAllowlist | src/storage/store.js:62-83 | the allowlist becomes `Added`, reports how many were added and the total, and writes only when something was added |
| Storage.Store.RemoveAllowlist | src/storage/store.js:85-104 | the allowlist becomes `Removed`, reports how many went and the total, and writes only when something went |
| Storage.Store.ListBans | src/storage/store.js:106-109 | the group's repaired ban list (canonical, no duplicates), empty for a non-group id |
| Storage.Store.IsBanned | src/storage/store.js:111-116 | true iff the id is a group and the normalised user is on its ban list |
| Storage.Store.AddBans | src/storage/store.js:118-138 | no change for a non-group id; otherwise the bans become `Added`, the file is written, and the counts are returned |
| Storage.Store.RemoveBans | src/storage/store.js:140-158 | no change for a non-group id; otherwise the bans become `Removed`, the file is written, and the counts are returned |
| Storage.Store.GetMute | src/storage/store.js:160-178 | not muted for a non-group id or an unnormalisable user; otherwise the status of the user's entry at the second clock reading, an ended entry being deleted (without writing the file) |
| Storage.Store.ExpireMute | src/storage/store.js:165-177 | for a group already written back: the status of the user's entry at the clock reading, the entry deleted from the stored group exactly when its end has passed; the file is not written |
| Storage.Store.AddMutes | src/storage/store.js:180-222 | nothing for a non-group id; an end already past reports the current total and changes nothing else; otherwise the mutes become `AddAll`, with the added, updated and total counts, and a write when any changed |
| Storage.Store.RemoveMutes | src/storage/store.js:224-245 | the mutes become `RemoveAll`, with the removed and total counts, and a write when any went |
| Storage.Store.GetModeration | src/storage/store.js:247-261 | the group's six switches and banned phrases, nothing for a non-group id |
| Storage.Store.SetModerationFlag | src/storage/store.js:263-283 | ok iff a group id and a known flag; the value reported is the stored one; only that flag changes, and the file is written |
| Storage.Store.SetAntiLink | src/storage/store.js:285 | `setModerationFlag` with `antiLink` |
| Storage.Store.SetFilterEnabled | src/storage/store.js:286-287 | `setModerationFlag` with `filterEnabled` |
| Storage.Store.SetAntiImage | src/storage/store.js:288 | `setModerationFlag` with `antiImage` |
| Storage.Store.SetAntiSticker | src/storage/store.js:289 | `setModerationFlag` with `antiSticker` |
| Storage.Store.SetExemptAllowlisted | src/storage/store.js:290-291 | `setModerationFlag` with `exemptAllowlisted` |
| Storage.Store.SetExemptAdmins | src/storage/store.js:292-293 | `setModerationFlag` with `exemptAdmins` |
| Storage.Store.ListBannedWords | src/storage/store.js:295-298 | the group's phrases, valid, empty for a non-group id |
| Storage.Store.AddBannedWord | src/storage/store.js:300-317 | a phrase new to the group (ignoring case) is appended and reported as one added; otherwise nothing is added; the file is written only when it was |
| Storage.Store.RemoveBannedWord | src/storage/store.js:319-336 | every phrase equal to the normalised phrase ignoring case is removed and counted; the file is written whenever the phrase normalises |
| Storage.Store.GetWelcome | src/storage/store.js:338-344 | the group's welcome switch and its template normalised once more, nothing for a non-group id |
| Storage.Store.SetWelcomeEnabled | src/storage/store.js:346-355 | ok and the value for a group id, with the switch set and the template re-normalised |
| Storage.Store.SetWelcomeTemplate | src/storage/store.js:357-367 | for a group id, the normalised template is stored, written and returned; otherwise not ok and the default template |
| GroupAdmin.OrElse | src/commands/services/groupAdmin.js:28 | `a \|\| b`: a present (non-empty) first value wins, else a present second, else nothing |
| GroupAdmin.ParticipantId | src/commands/services/groupAdmin.js:28 | a participant's id is the normalised first present of `id`, `jid`, `participant`; canonical; nothing when all are absent |
| GroupAdmin.FirstMatch | src/commands/services/groupAdmin.js:27-32 | the first position holding the user, or nothing iff no position holds it |
| GroupAdmin.AdminByFirst | src/commands/services/groupAdmin.js:27-34 | the participant scan answers with the admin flag of the first participant whose id is the user, false when there is none |
| GroupAdmin.FindAdmin | src/commands/services/groupAdmin.js:25-34 | the loop over participants computes `AdminBy`; no normalised user is never an admin |
| GroupAdmin.StatusOf | src/commands/services/groupAdmin.js:20-38 | `ok` is false exactly when the metadata fetch threw; an admin is always `ok` |
| GroupAdmin.StatusAdmin | src/commands/services/groupAdmin.js:20-34 | admin iff the fetch returned metadata with a participant array, the user normalises, and the first participant with that id has an admin role |
| GroupAdmin.FirstMatchDecides | src/commands/services/groupAdmin.js:27-31 | when the first participant is the user, its role decides |
| GroupAdmin.BotJid | src/commands/services/groupAdmin.js:41-44 | the bot's JID is the normalised `user.id`, else the normalised `user.jid`, else nothing; canonical |
| GroupAdmin.SanitizeTargets | src/commands/services/groupAdmin.js:46-53 | normalised, canonical targets without duplicates, never the bot, no more than given |
| GroupAdmin.SanitizeMembers | src/commands/services/groupAdmin.js:46-53 | a JID survives iff some target normalises to it and it is not the bot |
| GroupAdmin.SanitizeIdempotent | src/commands/services/groupAdmin.js:46-53 | sanitising twice is sanitising once |
| GroupAdmin.SanitizeAppend | src/commands/services/groupAdmin.js:46-53 | the sanitised targets of a list are a prefix of those of any extension of it |
| GroupAdmin.FreshAfterStore | src/commands/services/groupAdmin.js:10-13 | a just-stored entry is fresh exactly while less than the time-to-live has passed |
| GroupAdmin.FreshOthers | src/commands/services/groupAdmin.js:13 | storing one group's entry leaves every other group's freshness as it was |
| GroupAdmin.LookupsAgree | src/commands/services/groupAdmin.js:6-15 | a second lookup at the same instant sees what the first saw and leaves the cache as the first left it |
| GroupAdmin.Service.constructor | src/commands/services/groupAdmin.js:3-4 | a service with the given time-to-live and an empty cache |
| GroupAdmin.Service.GetGroupMetadata | src/commands/services/groupAdmin.js:6-15 | a fresh cached entry is returned without fetching; otherwise the fetch's outcome is returned and, when it did not throw, cached with the current time |
| GroupAdmin.Service.GetAdminStatus | src/commands/services/groupAdmin.js:17-39 | a missing group or user gives ok and not admin without a lookup; otherwise the status computed from what the cached-or-fetched metadata shows |
| Throttle.Stamp | src/commands/router.js:44-47 | recording a time: the key gets `now`, every other kept key keeps its time, the map either holds the key and all earlier keys or was cleared, and never grows past the limit |
| Throttle.CooldownRemaining | src/commands/router.js:52-62 | never negative; positive iff the window is positive and the key was stamped less than a window ago; then the wait ends exactly a window after the stamp |
| Throttle.WaitSeconds | src/commands/router.js:69-72 | whole seconds rounded up, at least one: the least such count covering the milliseconds |
| Throttle.WarningSuppressed | src/commands/router.js:37-50 | after a warning, another for the same key within the window is suppressed |
| Throttle.CooldownEnds | src/commands/router.js:58-59 | once a window has passed since the stamp, nothing remains |
| Throttle.CooldownAfterBump | src/commands/router.js:64-67 | right after a bump the full window remains |
| Throttle.Throttle.constructor | src/commands/router.js:21-30 | each window is its configured finite value or the default (15000, 1200, 6000 ms); both caches start empty |
| Throttle.Throttle.ShouldSendWarning | src/commands/router.js:37-50 | whether to warn, and the warning cache after the call, as `WarnAllowed` and `WarnedAfter` say; the cooldown cache is untouched |
| Throttle.Throttle.BumpCooldown | src/commands/router.js:64-67 | the cooldown cache is stamped for the key (cleared past 20000 entries); the warning cache is untouched |
| Actions.CountOfAppend | src/commands/enforcers/moderation.js:64-120 | counting effects of a kind distributes over concatenation |
| Actions.DenialTexts | src/commands/router.js:112-135 | each of the six gate denials has its own fixed Arabic text, and no two are the same |
| Enforcers.EffectShape | src/commands/enforcers/moderation.js:64-120 | an enforcement does at most one delete and at most one warning, the delete first |
| Enforcers.DeleteGating | src/commands/enforcers/mute.js:18-38 | a message with a key is deleted unless the bot's JID is known and the lookup positively says it is not an admin; a failed lookup still deletes |
| Enforcers.TryDelete | src/commands/enforcers/mute.js:18-38 | the delete step over the admin status the cache or the fetch shows; the metadata cache is unchanged or holds that lookup |
| Enforcers.Warn | src/commands/enforcers/mute.js:47-58 | a warning goes out iff the warning cooldown lets it; the warning cache is updated as `shouldSendWarning` does |
| Enforcers.IndefiniteMuteHolds | src/commands/enforcers/mute.js:13-14 | a mute without an end holds |
| Enforcers.TimedMuteHolds | src/commands/enforcers/mute.js:13-14 | a timed mute holds exactly until its end |
| Enforcers.EnforceMute | src/commands/enforcers/mute.js:10-61 | no group or no sender: false and nothing; otherwise true iff the sender is muted now, and then the message is deleted (as `DeleteStep`) and warned about (as `WarnStep` under the `mute` key) |
| Enforcers.SelectRuleFirstMatch | src/commands/enforcers/moderation.js:37-60 | the rule chosen is the first in the order image, sticker, phrase, link that matches, the link rule not being looked at while the phrase filter is on with phrases; none iff no looked-at rule matches |
| Enforcers.VerdictNeedsSwitch | src/commands/enforcers/moderation.js:15-62 | a rule fires only in a group with settings, when the sender is not exempt, and only when its own switch is on (the phrase rule also needs phrases); a failed admin check with the admin exemption on stops moderation |
| Enforcers.Decide | src/commands/enforcers/moderation.js:15-62 | the rule chosen is the `Verdict` over the group's settings and the sender's admin status as the cache or the fetch shows it |
| Enforcers.Enforce | src/commands/enforcers/moderation.js:62-120 | the effects of the chosen rule: none for no rule, otherwise delete then warning as `RuleEffects` says |
| Enforcers.Moderate | src/commands/enforcers/moderation.js:12-121 | no group or no sender: nothing; otherwise the verdict and its effects, with the store's group repaired and nothing written |
| Commands.RegistryGroupOnly | src/commands/router.js:88-98 | every registered command is a group-only command |
| Commands.KeysOf | src/commands/router.js:101-105 | a command's index keys are its lower-cased name followed by its lower-cased aliases |
| Commands.Register | src/commands/router.js:102-105 | registering a command adds exactly its keys, each mapped to it, and leaves the other keys |
| Commands.IndexHas | src/commands/router.js:100-106 | a key is in the index iff it is a lower-cased name or alias of some registered command |
| Commands.IndexLast | src/commands/router.js:100-106 | a key shared by several commands maps to the last one registered |
| Commands.IndexFrom | src/commands/router.js:100-106 | every index entry is a registered command |
| Commands.BuildIndex | src/commands/router.js:100-106 | the registration loop computes `IndexOf` |
| Help.Prefixed | src/commands/utils/help.js:28-29 | each name with the prefix in front |
| Help.EntryLines | src/commands/utils/help.js:27-33 | one entry line per command of a section, in order |
| Help.SectionsInOrder | src/commands/utils/help.js:15-39 | the help lines are the header, the admin, moderation and fun sections in that order, and the footer |
| Help.SortIntoSections | src/commands/utils/help.js:8-13 | the sorting loop puts each command, in order, into its section |
| Help.PushSection | src/commands/utils/help.js:20-34 | appending a section appends its heading and entry lines, or nothing when it is empty |
| Help.RenderHelp | src/commands/utils/help.js:1-40 | the loops compute `HelpBody`, the lines joined by newlines |
| Help.MembersOf | src/commands/utils/help.js:10-13 | a command is listed under a section iff it is registered and its category maps to that section |
| Help.UnknownCategoryUnderFun | src/commands/utils/help.js:11 | a command of any other category is listed under fun only |
| Help.SectionsPartition | src/commands/utils/help.js:8-13 | the three sections together hold every command exactly once |
| Help.EntryShape | src/commands/utils/help.js:28-32 | an entry starts with `- ` and the prefixed name, ends with the protected mark for a protected command, and is exactly that without aliases |
| Help.HeadingUnique | src/commands/utils/help.js:25-32 | a heading is never an entry line, and the three headings differ |
| Help.HeadingShown | src/commands/utils/help.js:21-25 | a section's heading is shown iff the section has commands |
| Help.EntryListed | src/commands/utils/help.js:27-33 | every registered command's line is in its section and in the help text |
| Menu.SentId | src/commands/menu/manager.js:10 | a remembered message id is non-empty |
| Menu.Remembered | src/commands/menu/manager.js:9-14 | remembering sets the group's state to now, the page and the sent id, keeps the other groups, and clears the whole map past 2000 groups |
| Menu.TokenPage | src/commands/menu/manager.js:230-232 | the help token `4` remembers the root page |
| Menu.RootFallback | src/commands/menu/manager.js:117-166 | the root menu sends one or two messages, the last a send; the plain text goes out iff the interactive list was not asked for or failed |
| Menu.Manager.constructor | src/commands/menu/manager.js:5-7 | a manager with the prefix, the caller-admin setting, the allowlist size and the commands, and no remembered menus |
| Menu.Manager.Remember | src/commands/menu/manager.js:9-14 | the state becomes `Remembered` |
| Menu.Manager.SendPage | src/commands/menu/manager.js:168-184 | one quoted reply with the page; the page is remembered only when the send succeeded |
| Menu.Manager.SendRoot | src/commands/menu/manager.js:117-166 | the root sends as `RootSends`; it fails only when the plain send fails; the root page is remembered after a successful send |
| Menu.Manager.SendModeration | src/commands/menu/manager.js:61-96 | the moderation page shows the group's settings, reading (and repairing) them without writing the file; remembered after a successful send |
| Menu.Manager.Navigate | src/commands/menu/manager.js:186-234 | text that is no navigation changes nothing; an expired menu is forgotten; otherwise the page for the token is shown |
| Menu.Manager.ShowPage | src/commands/menu/manager.js:204-233 | one quoted reply with the token's page, remembered after a successful send; only the moderation page touches the store |
| Menu.TtlInclusive | src/commands/menu/manager.js:196 | a menu exactly 90 s old still navigates; one 90.001 s old has expired |
| Menu.StaleReply | src/commands/menu/manager.js:202 | a reply to another message is ignored iff the menu is more than 15 s old |
| Menu.NavigationNeedsMenu | src/commands/menu/manager.js:187-199 | navigation happens only in a group with a remembered menu and for a token `0`–`4`, within 90 s |
| Menu.RememberedNavigates | src/commands/menu/manager.js:186-202 | within 15 s of showing a menu, any token navigates |
| Core.KeyOf | src/commands/defs/core.js:31-48 | an empty argument opens the root; the key is unknown exactly when a non-empty argument is none of the listed words |
| Core.WordsSelectTheirKey | src/commands/defs/core.js:31-48 | each listed word selects its own page, the earlier lists winning |
| Core.DigitsAgreeWithNavigation | src/commands/defs/core.js:32-42 | `menu 1`–`menu 4` open the pages that the tokens `1`–`4` open in menu navigation |
| Core.ArgumentLowered | src/commands/defs/core.js:27-29 | the menu argument is compared trimmed and lower-cased |
| Core.HelpCommand | src/commands/defs/core.js:10-17 | `help` replies with the rendered help over the registered commands; it fails exactly when the send fails |
| Core.MenuCommand | src/commands/defs/core.js:26-93 | `menu` sends the page its key selects (the interactive root for no argument, the plain root for an unknown word, the help text for `help`), remembers it after a successful send, and touches the store only for the moderation page |
| Fun.PickRandom | src/commands/utils/fun.js:3-7 | nothing iff the list is empty; otherwise an element of the list |
| Fun.RandomInRange | src/commands/utils/fun.js:9-22 | a number iff both bounds are at least 1 and the larger at most 1,000,000; the number lies between the smaller and the larger bound |
| Fun.Tokens | src/commands/utils/fun.js:25-27 | the trimmed, non-blank arguments, no more of them than arguments |
| Fun.SplitDigits | src/commands/utils/fun.js:32-50 | `^(\d{a,b})sep(\d{c,d})$`: the two digit runs around the separator and their values |
| Fun.SplitAtSeparator | src/commands/utils/fun.js:32-50 | two digit runs within their bounds around a non-digit separator are split back into their values |
| Fun.NoSeparator | src/commands/utils/fun.js:32-50 | a token without the separator never matches |
| Fun.RollOf | src/commands/utils/fun.js:31-79 | any roll read from the tokens is valid |
| Fun.DiceRollOf | src/commands/utils/fun.js:33-41 | a first token `NdM` with 1 ≤ N ≤ 20 and 2 ≤ M ≤ 1000 is N dice of M sides |
| Fun.RangeRollOf | src/commands/utils/fun.js:60-70 | two positive digit runs of at most six digits, the first not a dice or hyphen form, are the range between them |
| Fun.ParseRollSpec | src/commands/utils/fun.js:24-80 | no tokens gives the range 1..6; any result is a valid roll: 1–20 dice of 2–1000 sides, or a range with both ends in 1..1,000,000 |
| Fun.ParsedRollAccepted | src/commands/utils/fun.js:24-80 | every parsed roll is one `randomInRangeInclusive` accepts |
| Fun.TokensOfWords | src/commands/utils/fun.js:25-27 | trimmed non-blank arguments are all kept |
| Fun.DiceRoundTrip | src/commands/utils/fun.js:33-41 | `NdM` with 1 ≤ N ≤ 20 and 2 ≤ M ≤ 1000 parses as N dice of M sides |
| Fun.RangeRoundTrip | src/commands/utils/fun.js:60-70 | two numeric tokens below 1,000,000 parse as that range, in the order given |
| Fun.SingleDieRollOf | src/commands/utils/fun.js:43-48 | a first token `d` and one to four digits worth 2 to 1000 is one die of that many sides |
| Fun.SingleDieRoundTrip | src/commands/utils/fun.js:43-48 | `dM` with 2 ≤ M ≤ 1000 parses as one die of M sides |
| Fun.HyphenRollOf | src/commands/utils/fun.js:50-58 | a token of two positive digit runs of at most six digits joined by `-` is the range between them |
| Fun.HyphenRoundTrip | src/commands/utils/fun.js:50-58 | `a-b` with a and b in 1..999,999 parses as the range from a to b, in the order written |
| Fun.UpToRollOf | src/commands/utils/fun.js:72-77 | a lone digit run of at most six digits worth at least 2 is the range from 1 to it |
| Fun.UpToRoundTrip | src/commands/utils/fun.js:72-77 | a single number N in 2..999,999 parses as the range 1..N |
| Fun.DiceOutOfBounds | src/commands/utils/fun.js:33-41 | an `NdM` first token with N outside 1..20 or M outside 2..1000 gives no roll |
| Fun.SingleDieOutOfBounds | src/commands/utils/fun.js:43-48 | a `dM` first token with M outside 2..1000 gives no roll |
| Fun.HyphenOutOfBounds | src/commands/utils/fun.js:50-58 | an `a-b` first token with an end of 0 gives no roll |
| Fun.UpToOutOfBounds | src/commands/utils/fun.js:72-77 | a single number below 2 gives no roll |
| Fun.UnrecognisedRoll | src/commands/utils/fun.js:31-79 | a first token of none of the forms that is not a number gives no roll |
| Fun.UptimeParts | src/commands/utils/fun.js:83-89 | days·86400 + h·3600 + m·60 + s is the whole number of seconds, with h < 24 and m, s < 60 |
| Fun.UptimePartsUnique | src/commands/utils/fun.js:83-89 | those parts are the only ones with this property |
| Fun.Pad2 | src/commands/utils/fun.js:91-93 | `padStart(2, '0')`: two digits with the number's value |
| Fun.FormatUptime | src/commands/utils/fun.js:82-98 | `hh:mm:ss` of the parts, with `days يوم ` in front only when there are days |
| Fun.UptimeShape | src/commands/utils/fun.js:95-97 | the clock is the last eight characters, and the text is just the clock iff less than a day has passed |
| ModerationCommands.RulesCommand | src/commands/defs/moderation.js:3-39 | `rules` replies with the rules text over the group's settings, reading them without writing |
| ModerationCommands.SetRule | src/commands/defs/moderation.js:41-117 | `antilink`/`antiimage`/`antisticker`: no on/off word gives the usage and no change; otherwise the switch is set and written and the reply says which way it went |
| ModerationCommands.SetSwitch | src/commands/defs/moderation.js:54-56 | the store setter is ok exactly for a group id, and sets only that switch |
| ModerationCommands.SwitchReadBack | src/commands/defs/moderation.js:41-117 | after a switch a later read shows the new value, the other flags and the phrases as they were |
| ModerationCommands.Numbered | src/commands/defs/moderation.js:170-172 | one `n) phrase` line per listed phrase, numbered from 1 |
| ModerationCommands.ListShape | src/commands/defs/moderation.js:164-176 | the list has the title, a blank line, at most 30 numbered phrases, and a `(+n)` line exactly when there are more than 30 |
| ModerationCommands.ListText | src/commands/defs/moderation.js:164-176 | the loop computes the list lines joined by newlines |
| ModerationCommands.FilterList | src/commands/defs/moderation.js:157-178 | the empty-list reply when there are no phrases, otherwise the numbered list; nothing written |
| ModerationCommands.FilterAdd | src/commands/defs/moderation.js:180-208 | a missing phrase gets the prompt and an over-long one (over 200 characters) the refusal, with no change; otherwise the phrase is added when new, with the added reply and the total, or the already-there reply |
| ModerationCommands.FilterRemove | src/commands/defs/moderation.js:210-233 | a missing phrase gets the prompt; otherwise the phrase is removed, with the removed reply and the total, or the not-there reply |
| ModerationCommands.FilterSubOf | src/commands/defs/moderation.js:126-210 | the sub-command is removal for `remove`, `del` and `delete`, and unknown for anything that is not one of the listed words |
| ModerationCommands.FilterSwitch | src/commands/defs/moderation.js:142-155 | `filter on/off` sets the phrase filter and replies which way |
| ModerationCommands.FilterCommand | src/commands/defs/moderation.js:119-237 | `filter` dispatches on its sub-command: usage for none or an unknown one with no change, else the switch, the list, the add or the remove as above, each with the reply, the new document and whether it is saved: a switch for a group, an add that added and a remove of a normalisable phrase in a group are saved; the list, the prompts, the too-long refusal and the usage write nothing |
| ModerationCommands.AddedThenExists | src/commands/defs/moderation.js:180-208 | a phrase just added is the last in the group's list and adding it again adds nothing |
| ModerationCommands.RemovedThenMissing | src/commands/defs/moderation.js:210-233 | after removing a phrase no phrase equal to it ignoring case is left, and removing it again removes nothing |
| ModerationCommands.ExemptCommand | src/commands/defs/moderation.js:239-278 | `exempt`: a missing or unknown kind or no on/off word gives the usage and no change; otherwise that exemption is set and written, with the switched reply for a group |
| ModerationCommands.ExemptKind | src/commands/defs/moderation.js:256-257 | the allowlist exemption for `allowlist`, `allowlisted`, `allowed`; the admin exemption for `admins`, `admin`, `groupadmins`, `groupadmin` |
| ModerationCommands.SetExemption | src/commands/defs/moderation.js:264-268 | the store setter is ok exactly for a group id and sets that exemption |
| ModerationCommands.ExemptWordsDisjoint | src/commands/defs/moderation.js:256-257 | no word names both exemptions |
| ModerationCommands.Shown | src/commands/defs/moderation.js:305-306 | the trimmed template, cut to 900 characters followed by `...` when longer |
| ModerationCommands.StripSetWord | src/commands/defs/moderation.js:329 | `replace(/^set\b/i, '')`: a leading whole word `set` (any case) is dropped, nothing else |
| ModerationCommands.WelcomeCommand | src/commands/defs/moderation.js:280-357 | `welcome` alone shows the status and the template; `on`/`off` sets the switch; `set` stores a non-empty template of at most 2000 characters and refuses others; anything else gets the usage; the document is saved exactly when a switch or template is written for a group, never on the status, prompt, too-long or usage paths |
| ModerationCommands.TemplateReadBack | src/commands/defs/moderation.js:327-353 | a stable template just set reads back as itself, the switch unchanged |
| ModerationCommands.WelcomeSwitchReadBack | src/commands/defs/moderation.js:312-325 | after `welcome on/off` the switch reads back as set |
| ModerationCommands.SetWordIsWhole | src/commands/defs/moderation.js:329 | `settings…` keeps its `set`: the word boundary is honoured |
| AdminCommands.Accepted | src/commands/defs/admin.js:5-23 | the targets whose participant update succeeds, in order, no more of them than targets |
| AdminCommands.Refused | src/commands/defs/admin.js:5-23 | the targets whose participant update fails, in order |
| AdminCommands.SplitSizes | src/commands/defs/admin.js:5-23 | every target ends up in exactly one of the two lists |
| AdminCommands.SplitByOutcome | src/commands/defs/admin.js:5-23 | the two lists together are a permutation of the targets |
| AdminCommands.AcceptedMembers | src/commands/defs/admin.js:12-17 | a user is accepted iff it is a target whose update succeeds, refused iff it is a target whose update fails |
| AdminCommands.SplitCanonical | src/commands/defs/admin.js:5-23 | canonical targets give canonical accepted and refused lists |
| AdminCommands.Updates | src/commands/defs/admin.js:9-13 | one participant update per target, in order, for this group and operation |
| AdminCommands.RunGroupAction | src/commands/defs/admin.js:5-23 | the loop sends one update per target and splits the targets into the accepted and the refused |
| AdminCommands.ReportAccounts | src/commands/defs/admin.js:65-76 | the report of kick, promote and demote counts every target exactly once, so it is never empty when there were targets |
| AdminCommands.FailedListShown | src/commands/defs/admin.js:68-72 | a non-empty list of refused canonical users is always named in the report |
| AdminCommands.Resolved | src/commands/defs/admin.js:26-45 | the sanitised targets: canonical, without duplicates, never the bot itself |
| AdminCommands.UpdateCommand | src/commands/defs/admin.js:47-337 | `kick`, `promote`, `demote`: no targets gives the usage with the command's example; otherwise one update per target and then the report of the accepted and the refused |
| AdminCommands.StoreBans | src/commands/defs/admin.js:103 | the store's `addBans` over the accepted users: the count of new bans, the new data, written for a group |
| AdminCommands.BanCommand | src/commands/defs/admin.js:80-141 | `ban`: no targets gives the usage and no change; otherwise every target is removed, the accepted ones (if any) are stored as banned, and the reply reports removals, new bans and failures |
| AdminCommands.BanReportsSomething | src/commands/defs/admin.js:109-139 | with targets the ban reply is always a report, never the nothing-done reply |
| AdminCommands.BannedAfterBan | src/commands/defs/admin.js:80-141 | a user banned in a group is listed as banned at any later time |
| AdminCommands.BanCountsNew | src/commands/defs/admin.js:115-120 | the count of new bans is the number of distinct incoming users not banned before |
| AdminCommands.LiftBans | src/commands/defs/admin.js:170 | the store's `removeBans`: the count removed and the new data, written for a group |
| AdminCommands.UnbanCommand | src/commands/defs/admin.js:143-183 | `unban`: a command given by phone number is deleted first and answered unquoted; no targets gives the usage; otherwise the bans are lifted and the reply gives the count or says there was none |
| AdminCommands.UnbannedAfterUnban | src/commands/defs/admin.js:143-183 | a user unbanned is not listed as banned at any later time |
| AdminCommands.UnbanCountsBanned | src/commands/defs/admin.js:176-181 | the count lifted is the number of incoming users that were banned |
| AdminCommands.DurationsOf | src/commands/defs/admin.js:196-197 | each argument parsed as a duration token |
| AdminCommands.FirstSomeSpec | src/commands/defs/admin.js:196-207 | the first parsed duration is nothing iff no argument is a duration, and otherwise the first one that is |
| AdminCommands.FindDuration | src/commands/defs/admin.js:195-207 | the loop stops at the first argument that is a duration |
| AdminCommands.UntilLater | src/commands/defs/admin.js:209 | a timed mute ends strictly after now |
| AdminCommands.ParsedPositive | src/commands/utils/parse.js:28-53 | every duration an argument parses to lasts a positive number of milliseconds |
| AdminCommands.StoreMutes | src/commands/defs/admin.js:213 | the store's `addMutes`: the added/updated counts and the new data, written only when something changed |
| AdminCommands.MuteCommand | src/commands/defs/admin.js:185-243 | `mute`: no targets gives the usage, a too-large first duration the refusal, both with no change; otherwise the mutes are stored until now + duration (or indefinitely), and the reply counts targets, says whether all were muted already and warns when the bot's admin status is unknown or lacking |
| AdminCommands.MutedAfterMute | src/commands/defs/admin.js:185-243 | right after the mute every target is muted until the stored end |
| AdminCommands.LiftMutes | src/commands/defs/admin.js:257 | the store's `removeMutes`: the count removed and the new data, written only when something was removed |
| AdminCommands.UnmuteCommand | src/commands/defs/admin.js:245-271 | `unmute`: no targets gives the usage and no change; otherwise the mutes are lifted and the reply gives the count or says there was none |
| AdminCommands.UnmutedAfterUnmute | src/commands/defs/admin.js:245-271 | a user unmuted is not muted at any later time |
| Router.ChatOf | src/commands/router.js:138-143 | a chat exactly for a message with content, not the bot's own, whose chat is a group or a user; the chat is never empty nor the status broadcast |
| Router.NormalizeField | src/commands/router.js:147-150 | a present field normalises to a canonical user id |
| Router.SenderOf | src/commands/router.js:145-147 | the participant in a group and the chat in a private chat, normalised: canonical when present, absent without a key |
| Router.AltSenderOf | src/commands/router.js:149-150 | `participantAlt` in a group and `remoteJidAlt` otherwise, normalised: canonical when present |
| Router.AllowSet | src/commands/router.js:15-19 | the configured allowlist holds only canonical ids |
| Router.AllowSetMembers | src/commands/router.js:15-19 | a user is allowlisted iff some configured entry normalises to it |
| Router.GateOrder | src/commands/router.js:225-298 | group-only commands are refused outside a group before anything else; open commands pass; a protected command is refused by the allowlist first (with the not-set-up reply when it is empty), then by the caller's admin status, and passes iff every check it needs says yes |
| Router.GateRepliesAndLookups | src/commands/router.js:225-298 | every refusal is one of the six fixed replies, and the outcome depends on group metadata only for an allowlisted sender of a protected command |
| Router.KeysDiffer | src/commands/router.js:302-303 | the shared and the fun cooldown keys of a sender differ |
| Router.CooldownOrder | src/commands/router.js:300-343 | only a known sender in a group is held back; an active shared window always holds back and is checked first; a non-fun command is never held back by the fun window; every wait is positive, and a full window for a stamp not in the past |
| Router.RepeatWaits | src/commands/router.js:300-346 | a second command within the shared window after one that passed waits exactly the rest of the window |
| Router.FunRepeatWaits | src/commands/router.js:324-346 | a second fun command after the shared window but within the fun window waits exactly the rest of the fun window |
| Router.ViewStable | src/commands/router.js:249-280 | the caller and the bot lookups of one message see the same group metadata, the cache staying at most one refresh away |
| Router.CommandRouter.constructor | src/commands/router.js:14-106 | the allowlist normalised, the three windows from their settings or defaults (15000, 1200, 6000 ms), a 30 s admin cache, empty caches, the menu over the same commands, and the index of names and aliases |
| Router.CommandRouter.ExitOf | src/commands/router.js:137-397 | a message is ignored exactly when it is out of scope |
| Router.CommandRouter.CommandExit | src/commands/router.js:189-397 | past the enforcers a message is never ignored nor a mute exit |
| Router.CommandRouter.MuteStops | src/commands/router.js:158-172 | a muted sender's message in a group stops after the mute enforcer, whatever it says |
| Router.CommandRouter.PrivateChatsRefused | src/commands/router.js:225-234 | with the registered commands, every known command in a private chat is refused with the group-only reply |
| Router.CommandRouter.Enforce | src/commands/router.js:158-187 | the two enforcers run only for a known sender in a group; their effects are the mute enforcement for a muted sender (which stops the message), else the moderation verdict's; cooldown stamps and the file stay as they were |
| Router.CommandRouter.Gates | src/commands/router.js:225-298 | the refusal is `GateDenial` over the metadata the cache shows; the cache is touched only for an allowlisted sender of a protected command |
| Router.CommandRouter.Cooldown | src/commands/router.js:300-347 | the refusal is `CooldownDenial`; a passing command stamps its keys, a refused one changes nothing |
| Router.CommandRouter.RunModeration | src/commands/router.js:349-381 | each moderation handler, given the chat and the command's arguments, replies and changes and saves the store exactly as its own contract says: the rules text, the on/off switches, the filter sub-commands (with whether each is saved), the exemptions and the welcome settings |
| Router.CommandRouter.ModerationActs | src/commands/router.js:369-381 | a moderation handler's answer is one text in the chat, quoting the command |
| Router.CommandRouter.RunAdmin | src/commands/router.js:349-381 | the admin handlers run over the targets the message names: kick, promote and demote leave the store alone and send the updates and the report `UpdateCommand` states; ban, unban, mute and unmute store, save, answer and (mute only) refresh the admin cache exactly as their handlers state |
| Router.CommandRouter.RunStoreAdmin | src/commands/router.js:349-381 | ban, unban, mute and unmute over the given targets: the actions, the new document, whether it is saved and the admin cache are those of `BanCommand`, `UnbanCommand`, `MuteCommand` and `UnmuteCommand`; only mute can change the cache |
| Router.CommandRouter.RunStateful | src/commands/router.js:380-381 | a moderation answer is one quoted text; kick, promote and demote leave the store alone; only mute can change the admin cache |
| Router.CommandRouter.Dispatch | src/commands/router.js:380-381 | fails exactly when the reply cannot be sent; fun and help replies are their texts quoting the command with the store untouched; a moderation reply is one quoted text; kick, promote and demote leave the store alone; only mute can change the admin cache |
| Router.CommandRouter.Navigation | src/commands/router.js:192-208 | a group message without a command sends at most one menu page and writes nothing |
| Router.CommandRouter.KnownExit | src/commands/router.js:225-397 | a known command is refused, held back, or runs its own handler |
| Router.CommandRouter.RunKnown | src/commands/router.js:225-396 | the gates, then the cooldowns, then the handler: a refusal or wait is the only reply, stamps change only when the handler runs, and a failed handler is followed by the failure reply |
| Router.CommandRouter.RunCommand | src/commands/router.js:189-397 | no command: at most the menu navigation in a group and nothing in a private chat; an unknown name: the unknown-command reply; a refused or held-back command: exactly its refusal or wait reply; a command that ran: its cooldown keys stamped; nothing is written or stamped unless a command ran |
| Router.CommandRouter.Handle | src/commands/router.js:137-397 | an out-of-scope message changes nothing; otherwise the enforcers' effects come first, and a muted sender's message ends there with no stamps, writes or menu changes; after the enforcers' effects come exactly `RunCommand`'s replies for each exit: at most one navigation page, the unknown-command reply, or the refusal or wait reply, and the stamps of a command that ran |

## Left out

- Transport, authentication, configuration loading, logging and process signals are outside this model: `whatsapp.js`, `baileysAuth.js`, `config.js`, `index.js` and `logger.js`. Every `logger` call is dropped.
- File I/O:
  - `fs.js` (mkdir, chmod, temporary file and rename) is the single event of setting `Storage.Store.saved`;
  - reading the file is a `LoadOutcome` parameter.
- Store failures:
  - a store write or read that throws is not modelled;
  - so the handlers' "error while updating" replies for thrown store calls are not modelled, nor the ban reply for a failed ban save;
  - a store call that answers `ok: false` is modelled.
- `AdminCommands.Resolved`: `sanitizeTargets` throwing, and the resulting "error preparing targets" reply, are not modelled, because the shown code throws only on a failed foreign call.
- The store's `enqueue`/`opChain` promise chain is not modelled: the store is a sequence of method calls in FIFO order. Nothing else is concurrent.
- `src/storage/ids.js` is not part of this model. The store uses `Jid.NormalizeUserJid` and `Jid.IsGroupJid` in its place.
- Matching an admin across the LID and phone-number forms is not modelled. `getAdminStatus` compares one id field, and the model does the same.
- `src/commands/defs/fun.js` (quotes, games, `process.uptime`, memory figures) is modelled only as the fixed `FunReply` of each fun command. Randomness in `utils/fun.js` is a nondeterministic method result with its range stated.
- `formatMb` is not modelled: it uses floating-point rounding.
- Text handling:
  - lower-casing is ASCII lower-casing;
  - lengths count characters, not UTF-16 code units;
  - `Number()` applied to non-decimal strings, and non-integer `until` values, are not modelled; stored numbers are integers.
- `findFirstLink`'s regular expression is a `LinkMatcher` parameter. Only "nothing for empty text, and any hit is a substring" is proved.
- The superseded `src/commands.js` and `src/storage.js` are not modelled. The newer `router.js` and `store.js` replace them.
- `safeSendText` and `sleep(350)`: a send is an `Action` record whose success comes from `Net`, and the pause between participant updates is timing only.
- One connection answer and one clock reading per message:
  - every lookup and send while one message is handled sees the same `Net` and the same `now`;
  - a failing send other than the handler's reply does not change the flow, as in `handle`, which catches it.
- The contents of the interactive menu payload (buttons, rows) are not modelled. Only which page is sent, and whether the send succeeded, are modelled.
- `Router.CommandRouter.Enforce`: the admin cache after the enforcers is stated only as unchanged or one lookup later (`SameView`), not as its exact value.
- `Router.CommandRouter.Navigation`: its effect inside `Handle` is stated only as at most one page sent and nothing written. `Menu.Manager.Navigate` states it in full.
- `Normalize.NormalizeStoreData`: a stored `groups` that is an array is read as holding no group (`Normalize.ArrayGroupsReadEmpty`), and later group writes go into the model's map and are saved by `Storage.Store.Flush`. The program keeps the array and writes each group as a non-index property of it, which `JSON.stringify` drops. So for such a file the program never persists any group setting, and the model does not capture that loss.
- `Storage.Store.EnsureGroup`: a stored group that is a JSON array, or a group whose `moderation` or `welcome` is an array, passes `ensureGroup`'s object test (normalize.js:112, normalize.js:87, normalize.js:101). The program then writes the bans, phrases and mutes of such a group, or its six moderation switches, or its welcome switch and template, as non-index array properties. `JSON.stringify` drops these (store.js:46), so they are lost at the next restart. The model writes objects (`Storage.PutGroup`), and `Storage.Store.Flush` saves them. The lost settings are not modelled.
- `Fun.FormatUptime`: takes whole seconds. Flooring a fractional `seconds`, and reading a non-numeric one as 0, are not modelled.
- `Router.CommandRouter.Dispatch`: the texts of the moderation replies and the store effects of the admin handlers are stated one level down, by `Router.CommandRouter.RunModeration` and `Router.CommandRouter.RunAdmin`. `Dispatch` and `Router.CommandRouter.RunStateful` keep only the shape of those results, because repeating the handlers' contracts at every level multiplies the proof.
- `Router.CommandRouter.Dispatch`: admin and moderation handlers receive the chat as the group. Every registered command is group-only, so `ctx.groupJid` is always the chat when they run (`Router.CommandRouter.PrivateChatsRefused`).
- `Router.CommandRouter.constructor` takes the command list as a parameter. The program always registers `Commands.Registry`.
- The configured allowlist is a sequence of strings. A non-array `config.allowlist`, which the router treats as empty, is passed as the empty sequence.
- Clearing the warning, cooldown and menu caches past their size limits (5000, 20000, 2000) is modelled in `Throttle.Stamp` and `Menu.Remembered`. The lemmas about a repeated command assume the cache was not cleared in between.
- `Storage.Store.IsAllowlisted` has no contract of its own. What it reads is the `Listed` predicate, whose behaviour after a change is `Storage.ListedAfterChange`.
