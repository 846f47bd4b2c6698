# A verified model of the subtitle-puzzle site's core

The site teaches a language with YouTube videos. Its pages are built from a few scripts:

- **video.js** is the puzzle page. It reads a SubRip (SRT) subtitle file and splits each caption into word tokens. Each caption becomes a puzzle: the learner rebuilds the caption from shuffled word buttons. The script also keeps track of which lines are solved, plays a caption or the whole track again, polls the player, asks for a star rating at the end and files it.
- **video_catalog.js** is the catalogue page. It shows the catalogue as pages of twelve cards. The list can be filtered by tab (all, started, bookmarked), by difficulty level and by a title search. It also reads and writes the reader's per-video progress rows.
- **video_card.js** draws one catalogue card. It holds the Russian plural rule for "phrase" ("фраза", "фразы", "фраз").
- **profile.js** keeps the visit streak, the daily limit derived from it, the reader's initials and the profile menu.
- **app.js** is the home page. It shows the eight newest catalogue entries and their bookmark buttons.

This project models that core in Dafny.

- **Parsing** (`Tokenizer`, `Srt`, `VideoId`) is pure functions over strings.
- **The puzzle page** is a state-transition function per handler (`Engine`). Its invariants and properties are proved in `PuzzleProperties`.
- **The page's own globals** are the fields of a class, `Session.PuzzleSession`. Each handler method is proved to make exactly the step its `Engine` function describes.
- **The catalogue and home page** (`Videos`, `Catalog`, `Home`) are pure list functions plus classes for the state the pages update in place: the progress map, the grid cursor, the filters.
- **Cards and profile** (`Cards`, `Profile`) are pure functions, plus a class for the stored meta and one for the menu.

Modelling conventions:

- Times are integer milliseconds. The 0.05 s tolerance of the poll is 50 ms.
- Dates are integers: milliseconds from `Date.parse` in the catalogue, day numbers in the profile.
- The random shuffle of a puzzle's words is an arbitrary list of swaps chosen by the caller, so the pool is any permutation of the caption's tokens.
- Timer callbacks (`setTimeout`) wait in an explicit queue, and the caller fires any entry of it.
- The 120 ms poll (`setInterval(tick, 120)`) is the step `Poll`. It runs `tick` only while the interval is set, that is while `tickTimer` holds, and the caller chooses the player time at which it fires.
- Calls to the YouTube player are recorded in a list. The player's current time is a parameter.

Where the written code and the evident design differ, the model follows the code:

- `parseSRT` never checks that a caption's end is after its start.
- `syncNextIdxToTime` counts from the first caption again, so it can move the cursor back.
- `extractId` hands a string without a YouTube link on as the id, trimmed; it has no case for embed links.
- `playSnippet` opens a caption window without closing a full-track window.
- The load button starts a new video session without clearing the solved flags of the captions already loaded.

One place departs from the code on purpose. The catalogue's comparator reads a missing id as NaN, which is not a consistent order. The model sorts the catalogue with the corrected order instead; "Findings" shows both.

## Model

| member | source | states |
|---|---|---|
| Numbers.Clamp | video_catalog.js:45-47 | for a non-empty range the result lies in it and equals `n` when `n` is inside; below the range (or an empty range) gives `min`, above gives `max` |
| Html.EscapeHtmlIsSafe | video_catalog.js:49-56 | the escaped text holds no raw `<`, `>`, `"` or `'`, and every `&` begins one of the five emitted entities |
| Html.UnescapeEscapeHtml | video_card.js:10-17 | decoding the five entities gives the original text back, so escaping loses nothing |
| Tokenizer.StripLeading | video.js:181-197 | the result is a suffix of the word, what was removed is all punctuation or symbols, and the result does not start with one |
| Tokenizer.StripTrailing | video.js:181-197 | the result is a prefix of the word, what was removed is all punctuation or symbols, and the result does not end with one |
| Tokenizer.TokensAreClean | video.js:181-197 | every token is non-empty, holds no white space and neither starts nor ends with punctuation or a symbol |
| Tokenizer.NoTokensInPunctuation | video.js:181-197 | a text of only punctuation, symbols and white space gives no tokens |
| Tokenizer.TagIsSpace | video.js:181-197 | a closed `<…>` tag splits words exactly as a space would, whatever it holds |
| Tokenizer.TokenizeIdempotent | video.js:181-197 | tokenizing the space-joined tokens gives the same tokens back |
| Srt.CommaForm | video.js:174-176 | replacing the first `.` of a timestamp by `,` changes only its separator and keeps every field |
| Srt.SeparatorIrrelevant | video.js:174-179 | `,` and `.` before the milliseconds give the same time, because the `.` is replaced before the fields are read |
| Srt.AssembleFields | video.js:174-179 | a timestamp `HH:MM:SS,mmm` reads as h·3600000 + m·60000 + s·1000 + mmm milliseconds |
| Srt.TimestampRoundTrip | video.js:174-179 | a timestamp written for any time below 100 hours is well formed and reads back as that time |
| Srt.FindTiming | video.js:199-243 | the timing pattern is found at the leftmost position where it matches, and not found only when it matches nowhere |
| Srt.TimingLineRoundTrip | video.js:199-243 | a written `start --> end` line is read back as the same two times, with either separator and in either order of size |
| Srt.SplitBlocks | video.js:199-243 | the text splits into at least one block, and no block holds a blank-line break |
| Srt.SplitBlocksOfJoin | video.js:199-243 | blocks written with one blank line between them split back into exactly those blocks |
| Srt.Lines | video.js:199-243 | the lines kept from a block are non-empty and neither start nor end with white space; each is a trimmed line of the block, and every line of the block that is not blank is kept, trimmed |
| Srt.LinesOfJoin | video.js:199-243 | clean lines written one per line are read back exactly, in order |
| Srt.FindArrowLine | video.js:199-243 | the timing line is the first line holding `-->`, and none is found only when no line holds it |
| Srt.CollapseSpaces | video.js:199-243 | runs of white space become one plain space and a leading non-space character is kept |
| Srt.CollapseSpacesWords | video.js:199-243 | collapsing white space keeps every word of the text, in order |
| Srt.DisplayText | video.js:199-243 | a caption's shown text is the words left once every closed tag is removed, joined by single spaces; no `<` in it is closed by a later `>` |
| Srt.PlainText | video.js:398-433 | a cue's cleaned text is likewise the words left once the tags are removed, joined by single spaces, with no tag left |
| Srt.ParseBlock | video.js:199-243 | a block without two lines and a well-formed timing line gives nothing; a block with them is kept exactly when its caption has a word, and the segment has that line's times, the caption's tokens and shown text, and is unsolved |
| Srt.WellFormedBlock | video.js:199-243 | a numbering line, a timing line and caption lines give the segment of those times, text and tokens, even when the end precedes the start |
| Srt.ParseSrt | video.js:199-243 | the result holds exactly the segments of the usable blocks |
| Srt.ParseSrtSegments | video.js:199-243 | every parsed segment has clean tokens and starts unsolved |
| Srt.ParseSrtSorted | video.js:199-243 | the segments come out in ascending start order |
| Srt.ParseSrtStable | video.js:199-243 | segments with the same start keep the order of their blocks |
| Srt.ParseSrtBlank | video.js:199-243 | empty or all-white-space input gives no segments and no cues |
| Srt.ParsePlainBlock | video.js:398-433 | the same block and timing filter as for segments; a block passing it is kept exactly when its cleaned caption is not empty, and the cue has those times and that text |
| Srt.ParseSrtPlain | video.js:398-433 | the result holds exactly the cues of the usable blocks |
| Srt.ParseSrtPlainCues | video.js:398-433 | every parsed cue has non-empty text |
| Srt.ParseSrtPlainSorted | video.js:398-433 | the cues come out in ascending start order |
| VideoId.FindId | video.js:816-820 | the id is taken from the leftmost match of the link pattern, is made of `[A-Za-z0-9_-]`, and is missing only when the pattern matches nowhere |
| VideoId.ExtractId | video.js:816-820 | there is no id exactly for the empty input; otherwise it is a pattern id or the trimmed input |
| VideoId.ExtractIdOfYouTubeUrl | video.js:816-820 | a watch, shorts or youtu.be link, with or without scheme and `www.`, gives exactly its id, whatever follows the id (`?si=…`, `&t=42s`), since the pattern has no end anchor |
| VideoId.MatchNeedsHost | video.js:816-820 | every match of the pattern contains the letters `youtu` |
| VideoId.ExtractIdWithoutHost | video.js:816-820 | input without a YouTube host is not rejected: it is passed on trimmed as the id |
| Engine.Initial | video.js:1-28 | the state of a freshly loaded page satisfies the page invariant |
| Engine.EndedPrefix | video.js:474-483 | the cursor is the length of the longest run of leading captions ending by `t` + 50 ms, so it lies between 0 and the number of captions |
| Engine.FirstUnsolved | video.js:485-489 | the least unsolved index from `from` on, or none exactly when every caption from `from` on is solved |
| Engine.Shuffle | video.js:439-472 | the shuffled words are a permutation of the caption's tokens |
| Engine.Tiles | video.js:439-472 | one available button per word, in order |
| Engine.Unsolved | video.js:356-372 | every caption is kept, with its solved flag cleared |
| Engine.RatingKey | video.js:273-290 | the rating is filed under the current video id, or under "unknown" when there is none |
| PuzzleProperties.InitPuzzleByIndexOpens | video.js:439-472 | an index outside the list changes nothing; otherwise the line is open, the sentence is empty, the pool is a permutation of its tokens with every button available, and the player is sent to its start and paused |
| PuzzleProperties.InitPuzzleByIndexValid | video.js:439-472 | opening a puzzle keeps the page invariant |
| PuzzleProperties.RatingAskedOnce | video.js:292-306 | the rating prompt is raised at most once until `ratingWasAsked` is cleared |
| PuzzleProperties.OpenNextPuzzleOpensFirstUnsolved | video.js:491-515 | with no captions nothing happens; otherwise the first unsolved line from the cursor on is opened and queued for playback, and when none is left no puzzle is open and the rating is asked for |
| PuzzleProperties.OpenNextPuzzleKeeps | video.js:491-515 | opening the next puzzle never touches the captions or the log and never moves the cursor back |
| PuzzleProperties.OpenNextPuzzleValid | video.js:491-515 | opening the next puzzle keeps the page invariant |
| PuzzleProperties.SelectWordAppends | video.js:462-467 | a used button is ignored; an available one becomes used and its word is appended to the sentence |
| PuzzleProperties.SelectWordValid | video.js:462-467 | choosing a word keeps the page invariant |
| PuzzleProperties.RemoveWordDeletes | video.js:543-547 | removing word `i` deletes exactly that entry, keeps the rest in order and re-enables only its button |
| PuzzleProperties.RemoveWordValid | video.js:543-547 | removing a word keeps the page invariant |
| PuzzleProperties.SelectThenRemove | video.js:536-548 | choosing a word and removing it again restores the pool and the sentence |
| PuzzleProperties.SentenceMatchesIffTokens | video.js:527-533 | the sentence is accepted exactly when its words are the open caption's tokens |
| PuzzleProperties.SettleScheduledIffSolved | video.js:527-565 | the solve check is scheduled exactly when the sentence is the caption's token list, and otherwise nothing changes |
| PuzzleProperties.AddSolvedLineToLogOnce | video.js:106-138 | a line already logged is not logged again; a new line inside the list is appended once |
| PuzzleProperties.CompleteMarksAndAdvances | video.js:554-562 | solving line `idx` marks only it solved, logs it, and leaves the cursor at or after both its old place and `idx + 1` |
| PuzzleProperties.CompleteValid | video.js:554-562 | solving or skipping keeps the page invariant |
| PuzzleProperties.SettleSolvedMarksOpenPuzzle | video.js:554-562 | the delayed check solves the puzzle open when it runs, never moving the cursor back; with none open it does nothing |
| PuzzleProperties.SkipPuzzleMarksAndAdvances | video.js:805-814 | skipping an index outside the list does nothing; otherwise the line counts as solved, is logged and the cursor never moves back |
| PuzzleProperties.ResetAllRestarts | video.js:356-372 | with captions every line is unsolved again, the cursor is 0, the log is empty, line 0 is open and queued; with none only the overlay is hidden |
| PuzzleProperties.ResetAllValid | video.js:356-372 | restarting keeps the page invariant |
| PuzzleProperties.PlaySnippetOpensWindow | video.js:568-592 | without a player or with an index outside the list nothing happens; otherwise the player seeks to max(0, start + offset) and plays, and the window ends at the caption's end, leaving a full-track window as it is |
| PuzzleProperties.PlaySnippetValid | video.js:568-592 | replaying a caption keeps the page invariant |
| PuzzleProperties.ListenReplaysCurrentLine | video.js:794-803 | the listen buttons replay the open puzzle's caption, or the caption at the cursor |
| PuzzleProperties.PlaySubtitlesSegmentWindow | video.js:374-396 | the full-track window runs from max(0, first start) to at least the last end, with 0 ≤ start ≤ end and no puzzle open |
| PuzzleProperties.PlaySubtitlesSegmentValid | video.js:374-396 | the full-track replay keeps the page invariant |
| PuzzleProperties.TickClosesWindows | video.js:622-645 | a window stays open exactly while the time is more than 50 ms before its end; the end of the full track shows the finish overlay; a tick never opens a window |
| PuzzleProperties.TickValid | video.js:622-645 | a poll keeps the page invariant |
| PuzzleProperties.SnippetStopsAtItsEnd | video.js:568-645 | a caption replay plays exactly until the caption's end |
| PuzzleProperties.SegmentStopsAtLastEnd | video.js:374-645 | the full-track replay plays exactly until its window's end and then shows the overlay |
| PuzzleProperties.EndedPrefixMonotone | video.js:474-483 | a later time never gives a smaller cursor |
| PuzzleProperties.SyncMayMoveCursorBack | video.js:474-483 | some valid state and time move the cursor back on a resync |
| PuzzleProperties.OnStateChangeIdempotent | video.js:648-660 | playing resynchronises the cursor and runs the poll, anything else stops it, and a repeated notification changes nothing more |
| PuzzleProperties.OnStateChangeValid | video.js:648-660 | a player notification keeps the page invariant |
| PuzzleProperties.PollOnlyWhilePlaying | video.js:648-660 | the poll runs `tick` while the interval is set and changes nothing otherwise; after the player stops, polls change nothing; the invariant is kept |
| PuzzleProperties.LoadVideoResets | video.js:713-748 | without a player or an id only the overlay is hidden; otherwise the video is cued, the cursor, puzzle, log and rating prompt are reset, and the start-first callback is queued |
| PuzzleProperties.LoadVideoValid | video.js:713-748 | loading a video keeps the page invariant |
| PuzzleProperties.LoadVideoOfYouTubeUrl | video.js:713-748 | loading a YouTube link cues exactly the video it names, whatever follows the id |
| PuzzleProperties.LoadSubtitlesResets | video.js:751-778 | the parsed captions, sorted and unsolved, replace the old ones; the cursor follows the player time; the log and the rating prompt are reset |
| PuzzleProperties.LoadSubtitlesValid | video.js:751-778 | loading subtitles keeps the page invariant |
| PuzzleProperties.LoadTranslationsSorted | video.js:780-792 | the translations are the file's cues sorted by start, and the invariant is kept |
| PuzzleProperties.RateVideoStores | video.js:308-318 | a zero rating is ignored; otherwise the rating and the caption count are filed under the video and the finish screen is shown with every window closed |
| PuzzleProperties.RateVideoValid | video.js:308-318 | rating keeps the page invariant |
| PuzzleProperties.FinishKeepsValid | video.js:668-681 | the finish overlay keeps the page invariant |
| PuzzleProperties.MaybeStartFirstPuzzleOpens | video.js:518-525 | nothing happens until a player, a video and captions are there; then the first unsolved line of the list is opened and queued |
| PuzzleProperties.MaybeStartFirstPuzzleValid | video.js:518-525 | the start-first callback keeps the page invariant |
| PuzzleProperties.FireValid | video.js:554-562 | running any queued callback keeps the page invariant; a position outside the queue does nothing |
| Session.PuzzleSession.constructor | video.js:1-28 | the page globals start in the initial state |
| Session.PuzzleSession.SyncNextIdxToTime | video.js:474-483 | the fields make the step `Engine.SyncNextIdxToTime` |
| Session.PuzzleSession.GetNextUnsolvedIdx | video.js:485-489 | the loop returns the first unsolved index from `from` on, as `Engine.FirstUnsolved` |
| Session.PuzzleSession.InitPuzzleByIndex | video.js:439-472 | the fields make the step `Engine.InitPuzzleByIndex` |
| Session.PuzzleSession.ShowRatingModal | video.js:292-306 | the fields make the step `Engine.ShowRatingModal` |
| Session.PuzzleSession.OpenNextPuzzle | video.js:491-515 | the fields make the step `Engine.OpenNextPuzzle` |
| Session.PuzzleSession.MaybeStartFirstPuzzle | video.js:518-525 | the fields make the step `Engine.MaybeStartFirstPuzzle` and keep the invariant |
| Session.PuzzleSession.RenderUserSentence | video.js:527-565 | the fields make the step `Engine.RenderUserSentence` |
| Session.PuzzleSession.SelectWord | video.js:462-467 | the fields make the step `Engine.SelectWord` and keep the invariant |
| Session.PuzzleSession.RemoveWord | video.js:543-547 | the fields make the step `Engine.RemoveWord` and keep the invariant |
| Session.PuzzleSession.AddSolvedLineToLog | video.js:106-138 | the fields make the step `Engine.AddSolvedLineToLog` |
| Session.PuzzleSession.SettleSolved | video.js:554-562 | the fields make the step `Engine.SettleSolved` and keep the invariant |
| Session.PuzzleSession.SkipPuzzle | video.js:805-814 | the fields make the step `Engine.SkipPuzzle` and keep the invariant |
| Session.PuzzleSession.ClearProgress | video.js:356-372 | the loop clears every solved flag in place, as `Engine.Unsolved`, and empties the log |
| Session.PuzzleSession.ResetAllPuzzlesAndStart | video.js:356-372 | the fields make the step `Engine.ResetAllPuzzlesAndStart` and keep the invariant |
| Session.PuzzleSession.PlaySubtitlesSegment | video.js:374-396 | the fields make the step `Engine.PlaySubtitlesSegment` and keep the invariant |
| Session.PuzzleSession.PlaySnippet | video.js:568-592 | the fields make the step `Engine.PlaySnippet` and keep the invariant |
| Session.PuzzleSession.Listen | video.js:794-803 | the fields make the step `Engine.Listen` and keep the invariant |
| Session.PuzzleSession.ShowFinishOverlay | video.js:668-681 | the fields make the step `Engine.ShowFinishOverlay` |
| Session.PuzzleSession.Tick | video.js:622-645 | the fields make the step `Engine.Tick` and keep the invariant |
| Session.PuzzleSession.Poll | video.js:648-654 | the fields make the step `Engine.Poll`, which runs `tick` only while the interval is set, and keep the invariant |
| Session.PuzzleSession.OnStateChange | video.js:648-660 | the fields make the step `Engine.OnStateChange` and keep the invariant |
| Session.PuzzleSession.PlayerIsReady | video.js:688-711 | the fields make the step `Engine.PlayerIsReady` and keep the invariant |
| Session.PuzzleSession.LoadVideo | video.js:713-748 | the fields make the step `Engine.LoadVideo` and keep the invariant |
| Session.PuzzleSession.LoadSubtitles | video.js:751-778 | the fields make the step `Engine.LoadSubtitles` and keep the invariant |
| Session.PuzzleSession.LoadTranslations | video.js:780-792 | the fields make the step `Engine.LoadTranslations` and keep the invariant |
| Session.PuzzleSession.RateVideo | video.js:308-318 | the fields make the step `Engine.RateVideo` and keep the invariant |
| Session.PuzzleSession.Fire | video.js:554-562 | the fields make the step `Engine.Fire` and keep the invariant |
| Videos.KeyInjective | video_catalog.js:82-89 | distinct ids are filed under distinct keys |
| Videos.RowOf | video_catalog.js:82-89 | the state is in 0..2 and the bookmark 0 or 1; a missing row reads as {0, 0}; a stored in-range state and the bookmark's truthiness are kept |
| Videos.SetRow | video_catalog.js:91-96 | only the entry under the id's key is written; every other entry is unchanged |
| Videos.SetRowReadBack | app.js:70-75 | read back, the patched fields are what the patch says, the others keep their previous values, and every other id reads as before |
| Videos.BookmarkToggledFlips | video_catalog.js:340-342 | the toggle flips that id's bookmark, keeps its state, and leaves every other id alone |
| Videos.BookmarkToggledTwice | app.js:127-136 | toggling twice gives every id back its row |
| Videos.Enrich | app.js:77-84 | the entry is kept and carries exactly the row `getUserRow` gives |
| Videos.EnrichAll | app.js:77-84 | one card per entry, in order |
| Videos.Level | video_card.js:75-78 | the level is in 1..3, an in-range level is kept, and NaN, a missing value or 0 count as 1 |
| Videos.NewestFirstSorted | app.js:86-89 | the sorted copy is a permutation of the list, ordered newest first |
| Videos.NewestFirstOrdered | app.js:86-89 | newest first by date and then id, a missing id counting as 0; entries the comparator ties keep their order |
| Videos.ProgressStore.SetUserRow | video_catalog.js:91-96 | the progress map becomes `SetRow` of the old one |
| Videos.ProgressStore.ToggleBookmark | video_catalog.js:340-342 | the progress map becomes the toggled one |
| Catalog.ApplyDifficultyKeeps | video_catalog.js:156-159 | no selected level keeps the list; otherwise exactly the entries whose level is selected are kept |
| Catalog.ApplyDifficultyAllLevels | video_catalog.js:156-159 | selecting all three levels keeps the whole list |
| Catalog.ApplyDifficultyAppend | video_catalog.js:156-159 | the filter keeps the order of the entries it keeps |
| Catalog.ApplySearchKeeps | video_catalog.js:170-174 | a blank query keeps the list; otherwise exactly the entries whose lower-cased title contains the lower-cased trimmed query are kept |
| Catalog.ApplySearchIdempotent | video_catalog.js:170-174 | searching again for the same query changes nothing |
| Catalog.CatalogOrderAsWrittenInconsistent | video_catalog.js:176-192 | with a missing id the written comparator is not transitive (ids 1, none, 2 on one date) |
| Catalog.CatalogOrderAgrees | video_catalog.js:176-192 | where every entry has an id, the written order and the corrected one sort alike |
| Catalog.GetFilterListTabs | video_catalog.js:176-192 | every tab is newest first; "starter" holds exactly the started entries, "fav" the bookmarked ones, any other tab the whole catalogue |
| Catalog.CountsBounded | video_catalog.js:196-202 | the "starter" and "fav" counters never exceed the "new" counter |
| Catalog.Ticked | video_catalog.js:316-318 | the selected levels all lie in 1..3 |
| Catalog.SyncDifficulty | video_catalog.js:310-327 | with no boxes every level is selected; after a change the selection is never empty |
| Catalog.SyncDifficultyMatchesBoxes | video_catalog.js:310-327 | the selection is that of the ticked boxes, and only the changed box can have been ticked again |
| Catalog.NextCursorBounds | video_catalog.js:262-263 | one page moves the cursor by at most twelve, by at least one while entries remain, and never past the end |
| Catalog.RenderResetShowsFirstPage | video_catalog.js:253-283 | a reset render shows the first min(12, n) entries, with "load more" shown exactly when more remain |
| Catalog.RenderMoreAppendsNextPage | video_catalog.js:253-283 | a further render appends the next slice of at most twelve cards and keeps grid and button in step with the list |
| Catalog.CatalogPage.constructor | video_catalog.js:437-452 | the boxes are read, the "new" tab is active with no query, and the grid shows the first page: the first min(12, n) cards of the list |
| Catalog.CatalogPage.SyncDifficultyFromUI | video_catalog.js:310-327 | the boxes and the selection become `SyncDifficulty` of the old boxes |
| Catalog.CatalogPage.Render | video_catalog.js:253-283 | the grid becomes `Rendered` of the current list and the old grid |
| Catalog.CatalogPage.OnDifficultyChange | video_catalog.js:378-384 | the selection is re-read, is not empty, and the grid shows the first min(12, n) cards of the new list |
| Catalog.CatalogPage.SelectTab | video_catalog.js:387-392 | the tab is set and the grid shows the first min(12, n) cards of its list |
| Catalog.CatalogPage.OnSearchInput | video_catalog.js:395-399 | the query is set and the grid shows the first min(12, n) matches |
| Catalog.CatalogPage.ResetSearchAndFilters | video_catalog.js:302-308 | empty query, "new" tab, and the grid shows the first min(12, n) cards of that list |
| Catalog.CatalogPage.OnGridClick | video_catalog.js:329-347 | a NaN or 0 id or another action leaves the rows and the grid unchanged; the bookmark action toggles that row only and the grid shows the first min(12, n) cards again |
| Catalog.CatalogPage.LoadMore | video_catalog.js:416 | the cursor moves to min(cursor + 12, n) and exactly the cards between the old and new cursor are appended |
| Catalog.CatalogPage.OnSentinelVisible | video_catalog.js:419-431 | while "load more" is shown the next page is appended, as by `LoadMore`; otherwise the grid is unchanged |
| Cards.PhraseWord | video_card.js:19-27 | "фраза" exactly when \|n\| mod 10 = 1 and \|n\| mod 100 ≠ 11; "фразы" exactly for 2..4 outside 12..14; "фраз" otherwise |
| Cards.PhraseWordLastTwoDigits | video_card.js:19-27 | the form ignores the sign and depends only on \|n\| mod 100 |
| Cards.PhraseWordNotANumber | video_card.js:19-27 | a value that is not a number is read as 0 and takes "фраз" |
| Cards.PhraseLabelNamesCount | video_card.js:29-31 | the label is the numeral, one space and the word, and distinct counts get distinct labels |
| Cards.CardViewOf | video_card.js:73-116 | the level is in 1..3, the bookmark flag 0 or 1 with matching label and `aria-pressed`, and a missing phrase count shows "0 фраз" |
| Cards.CardViewTitleAndChip | video_card.js:73-116 | the title is safely escaped and decodes to the entry's title or the placeholder; the chip names exactly the entry's phrase count |
| Profile.DailyRefreshedCases | profile.js:56-72 | a first visit starts a streak of 1; the same day changes nothing; the next day adds one, a missing streak counting as 0; any other day restarts at 1; a new day zeroes `addedToday` |
| Profile.DailyRefreshedIdempotent | profile.js:56-72 | a second refresh on the same day changes nothing |
| Profile.ConsecutiveVisits | profile.js:56-72 | a visit on each of the `n` days after the last visit adds `n` to the streak |
| Profile.FirstVisitsStreak | profile.js:56-72 | after a first visit and `n - 1` further daily visits the streak is `n` |
| Profile.DailyLimitBounds | profile.js:73-76 | the limit is at least 10 for a streak that is not negative, is 10 plus a multiple of 5, and never falls as the streak grows |
| Profile.DailyLimitAfterRun | profile.js:73-76 | after `n` days in a row the limit is 10 + 5·⌊n/3⌋ |
| Profile.InitialsOfName | profile.js:84-89 | a blank name gives "GK"; otherwise one or two letters, the first being the first non-space character upper-cased, two exactly when there is a second word, the second being that word's first character upper-cased |
| Profile.InitialsUpperCase | profile.js:84-89 | the initials are already upper case |
| Profile.DisplayName | profile.js:94 | a non-empty stored name is shown as given; a missing or empty one is shown as "Гость" |
| Profile.MetaStore.RefreshDaily | profile.js:56-72 | the stored meta becomes the refreshed one, which is returned |
| Profile.MetaStore.Hydrate | profile.js:92-111 | the meta is refreshed; the view shows the name, its initials, the streak and the limit, which is at least 10 for a streak that is not negative |
| Profile.MenuSteps | profile.js:8-32 | opening shows the menu and closing hides it, each idempotent; a toggle flips it and two restore it; without the elements nothing changes; `aria-expanded` stays in step |
| Profile.ProfileMenu.OpenMenu | profile.js:8-14 | the menu state becomes `Opened` of the old one |
| Profile.ProfileMenu.CloseMenu | profile.js:16-22 | the menu state becomes `Closed` of the old one |
| Profile.ProfileMenu.ToggleMenu | profile.js:24-32 | the menu state becomes `Toggled` of the old one |
| Profile.ProfileMenu.OnDocumentClick | profile.js:34-42 | a click outside the menu and its button closes it; any other click changes nothing |
| Profile.ProfileMenu.OnKeyDown | profile.js:43-46 | Escape closes the menu; any other key changes nothing |
| Home.LatestAreNewest | app.js:318-320 | the strip holds min(8, n) catalogue entries, newest first, and no entry left out is newer than one shown |
| Home.ReEnrichAfterToggle | app.js:127-136 | after a toggle the same entries are drawn in the same order; only the toggled id's cards change, and only their bookmark |
| Home.HomePage.constructor | app.js:318-327 | the strip is built from the eight newest entries and drawn with the current rows |
| Home.HomePage.OnTrackClick | app.js:119-137 | a NaN or 0 id is ignored; the bookmark action toggles that row only and the strip is drawn again |

## Left out

- Markup and styling are not modelled: `innerHTML` building, class toggles, scrolling, the text mask controls, the star hover paint, and the rating dialog's click and Escape guards. The model keeps the values the markup is built from: card fields, grid contents, the open/closed flags.
- The catalogue's difficulty dropdown (`openDiff`, `closeDiff`, `toggleDiff` and their click and Escape handlers) is not modelled. It only shows and hides the panel, in the same way as the profile menu, which is modelled.
- The YouTube player is not executed. Seek, play, pause and cue are recorded as calls, and the player's current time is a parameter.
- Timers are not real. The 450 ms solve check, the 50 ms autoplay and the delayed start after loading are entries of a queue that the caller fires in any order. A stale callback is therefore allowed to run at any later point. The 120 ms poll is a step the caller may take at any time while the interval is set; its period is not modelled.
- `localStorage`, `JSON`, `fetch`, `FileReader`, `alert` and `console` are left out. The stored progress map, the stored meta, the ratings map and the file text are plain values. The `updatedAt` stamps and the catalogue fetch errors are not modelled.
- `Date.parse`, `toISOString` and the profile's day arithmetic are replaced by integers: milliseconds for catalogue dates, day numbers for the profile.
- Non-integer numbers are not modelled. A numeric field is an integer, or absent when `Number()` would give NaN. Fractional stars, fractional difficulties and fractional phrase counts are not covered.
- Character classes are approximations:
  - Unicode `\p{P}`/`\p{S}` is approximated by ASCII, Latin-1, general punctuation, currency, arrows, mathematical symbols and `№`.
  - `\s` uses the usual ASCII and Unicode spaces.
  - `toLowerCase`/`toUpperCase` cover ASCII and Cyrillic letters only.
  - Strings are sequences of characters, not UTF-16 code units.
- `Math.random` is not modelled. The shuffle of a puzzle's words is a list of swaps chosen by the caller.
- The catalogue and card `getYoutubeId`/`thumbUrl` are not modelled: they depend on the `URL` parser. The same holds for `buildYoutubeHrefFromVidInput`, `updateDisclaimerLink`, `markVideoStarted`, `prefillFromQueryAndAutoload` and `autoClickLoadWhenPlayerReady`.
- `progressGlyph`, `encodeURIComponent` and the card's thumbnail link are not modelled. The catalogue page's own `cardHTML` (video_catalog.js:210-251) is not modelled either; the shared card's `cardHTML` is.
- `setCounters` is modelled as the three counts, not as the counter elements.
- The home page's hover-scroll carousel (`app.js:141-283`) is not modelled: it is pointer geometry and animation frames.
- `applyTranslationsToExistingLog` and the translation text of a log line are not modelled. The log keeps each line's index and status.
- Profile.MetaStore.Hydrate: the limit is stated to be at least 10 only for a stored streak that is not negative. A negative stored streak gives a lower limit in the code as well.

## Findings

| source | as written | input that shows it | evidently intended | confidence | as-written member | corrected member |
|---|---|---|---|---|---|---|
| video_catalog.js:176-192 | the catalogue sorts with `(date b - date a) \|\| (b.id - a.id)`, which is NaN when an id is missing, so the comparator is not a consistent order | three entries of one date with ids 1, none and 2: 1 precedes none and none precedes 2, yet 1 does not precede 2 | newest first, a missing id counting as 0, as the home page's `newestFirst` does (app.js:86-89) | not executed | Catalog.CatalogOrderAsWrittenInconsistent | Catalog.GetFilterListTabs |
