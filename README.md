# BTC bot sizing and engine, and two podcast text utilities, in Dafny

This project models three pieces of sequential logic and proves properties of them.

- **The sizing model** `b_dual_mom_target` (`Strategy`). It maps completed daily closes, an equity curve and eight parameters to a target exposure. The stages are:
  - a short-history check;
  - dual-momentum consensus;
  - trend dampening against a simple moving average;
  - volatility targeting;
  - a two-tier drawdown overlay;
  - a final leverage cap.

  Its helpers `sma`, `realized_vol_annual` and `max_drawdown` are modelled too. All arithmetic is over exact `real`s. `math.sqrt` is a parameter: any function that never returns a negative value.
- **The bot engine** (`Engine`). `Engine.BotEngine` is a class whose fields are the persisted state record:
  - last decision day;
  - equity curve;
  - daily returns;
  - last price;
  - the kill-switch flag.

  `RunOnce` takes the UTC wall clock as a parameter. It runs against the paper exchange `PaperExchange.PaperAdapter`, which serves a close history and holds one mutable paper position. Writing the state file is modelled as a ghost snapshot `saved`. `Engine.Cycle` is the pure specification of one cycle, and `RunOnce` is proved equal to it. `Engine.Polls` iterates `Cycle` over a list of clock readings. That is used to state the multi-cycle facts: once per day, a halt is final, the ledger is append-only.
- **The two-host script parser and pause rule** (`TwoHostScript`), and **the cleanup file classifier** (`Cleanup`). Both are over the Python string idioms in `Text`:
  - `strip` and `lower`, for ASCII only;
  - `splitlines` on `\n`;
  - `count`, `startswith` and `rfind`.

  The two label regexes are written out as an explicit matcher. That matcher covers case-insensitive `Host` + spaces + letter, or the name, then spaces, `:`, spaces and at least one character. It includes the backtracking of `\s*(.+)`.

`Wrappers` holds `Option`/`Result`. `Seqs` holds Python's `s[-k:]` (`PyTail`, where `k == 0` gives the whole list), `sum`, and list minimum and maximum.

## Model

| member | source | states |
|---|---|---|
| Seqs.PyTail | aster_btc_bot/adapters/aster_placeholder.py:24 | `s[-k:]` is a suffix of `s`: for `k > 0` the last `min(k, len)` elements; for `k == 0` the whole list; for `k < 0` all but the first `-k` |
| Seqs.PyTailAllPositive | aster_btc_bot/engine.py:75-76 | a tail of a list of positive closes is all positive, so the strategy may divide by it |
| Seqs.SeqMax | aster_btc_bot/strategy.py:4-7 | the result is at least every element and is one of them |
| Seqs.SeqMin | aster_btc_bot/strategy.py:4-7 | the result is at most every element and is one of them |
| Seqs.SumBounds | aster_btc_bot/strategy.py:7 | a sum of `n` terms in `[lo, hi]` lies in `[n*lo, n*hi]` (by induction) |
| Seqs.SumAppend | aster_btc_bot/strategy.py:7 | the sum of a concatenation is the sum of the parts (by induction) |
| Seqs.SumSquares | aster_btc_bot/strategy.py:14 | a sum of squares is never negative |
| Seqs.RMin | aster_btc_bot/strategy.py:74 | `min` of two reals is at most both and is one of them |
| Seqs.RMax | aster_btc_bot/strategy.py:74 | `max` of two reals is at least both and is one of them |
| Strategy.Sma | aster_btc_bot/strategy.py:4-7 | `None` exactly when fewer than `n` values exist; otherwise a value between the smallest and largest of the last `n` |
| Strategy.SmaIsMean | aster_btc_bot/strategy.py:7 | `n` times the moving average is the sum of the last `n` values |
| Strategy.MeanWithinRange | aster_btc_bot/strategy.py:7 | the mean of a non-empty window lies between its minimum and maximum |
| Strategy.RealizedVolAnnual | aster_btc_bot/strategy.py:10-15 | `None` exactly when fewer than `lookback` returns exist; otherwise non-negative |
| Strategy.SimpleReturns | aster_btc_bot/strategy.py:67-70 | one return per consecutive pair of closes, element `i` being `closes[i+1]/closes[i] - 1` |
| Strategy.VolReturns | aster_btc_bot/strategy.py:67-69 | the appending loop yields `[0.0]` followed by the simple returns |
| Strategy.Peak | aster_btc_bot/strategy.py:19-23 | the running peak is at least the first point and the latest point seen |
| Strategy.PointDrawdown | aster_btc_bot/strategy.py:24 | 0 while the peak is not positive; against a positive peak it is positive iff the point is below the peak, 0 iff it equals the peak, and at most 1 for a non-negative point |
| Strategy.DrawdownAt | aster_btc_bot/strategy.py:21-24 | the drawdown of a point against its running peak is non-negative, and at most 1 for a non-negative point |
| Strategy.PeakIsRunningMax | aster_btc_bot/strategy.py:19-23 | the running peak after `n` points is the largest of them and is one of them (by induction) |
| Strategy.MaxDrawdownOf | aster_btc_bot/strategy.py:20-25 | the running `mdd` is never negative |
| Strategy.MaxDrawdownIsLargest | aster_btc_bot/strategy.py:20-25 | `mdd` bounds every point's drawdown against its running peak and is either 0 or one of them (by induction) |
| Strategy.MaxDrawdown | aster_btc_bot/strategy.py:18-26 | the maximum drawdown is non-negative |
| Strategy.MaxDrawdownLoop | aster_btc_bot/strategy.py:18-26 | the loop updating `peak` and `mdd` computes `MaxDrawdown` |
| Strategy.NonDecreasingNoDrawdown | aster_btc_bot/strategy.py:18-26 | a curve that never falls has drawdown 0 |
| Strategy.NonPositiveCurveNoDrawdown | aster_btc_bot/strategy.py:24 | points seen while the running peak is not positive count as 0, so a curve never above 0 has drawdown 0 |
| Strategy.DrawdownAtMostTotalLoss | aster_btc_bot/strategy.py:24 | on a non-negative curve the drawdown is at most 1 |
| Strategy.Momentum | aster_btc_bot/strategy.py:48-49 | the momentum is positive iff the close `k` days back is below the last one, and negative iff it is above |
| Strategy.Direction | aster_btc_bot/strategy.py:50-55 | base is +1 iff both momenta are positive, -1 iff both are negative, else 0 |
| Strategy.Need | aster_btc_bot/strategy.py:43 | the history needed is `max(ms, ml, tr, v) + 2`: at least each window plus 2, and equal to one of them |
| Strategy.Dampen | aster_btc_bot/strategy.py:57-64 | with an SMA, a short at or above it is halved, a long below it is scaled by 0.75, and every other case leaves base unchanged; no SMA leaves base unchanged; the sign never changes; from {-1,0,1} the result is in {-1,-0.5,0,0.75,1} |
| Strategy.VolLeverage | aster_btc_bot/strategy.py:70-74 | 0 with no estimate or one at or below 1e-9; otherwise `tv/rv` when that lies in `[0, maxlev]`, `maxlev` when it exceeds `maxlev`, and `min(maxlev, 0)` when it is negative; with `maxlev >= 0` the leverage lies in `[0, maxlev]`, and it is positive with a usable estimate, `tv > 0` and `maxlev > 0` |
| Strategy.Leverage | aster_btc_bot/strategy.py:66-74 | past the history check a volatility estimate always exists (the source's `None` branch is unreachable there); the leverage is 0 when the estimate is at or below 1e-9, positive above it when `tv > 0` and `maxlev > 0`, and with `maxlev >= 0` lies in `[0, maxlev]` |
| Strategy.DrawdownOverlay | aster_btc_bot/strategy.py:78-84 | an empty curve skips the overlay; `mdd >= dd2` gives 0; `dd1 <= mdd < dd2` halves; otherwise unchanged; the sign never flips |
| Strategy.Clamp | aster_btc_bot/strategy.py:86-87 | with `maxlev >= 0` the result lies in `[-maxlev, maxlev]`: an input inside is returned unchanged, one above saturates at `maxlev`, one below at `-maxlev`, and the sign is kept |
| Strategy.Base | aster_btc_bot/strategy.py:47-64 | the dampened direction is one of -1, -0.5, 0, 0.75, 1 |
| Strategy.Target | aster_btc_bot/strategy.py:29-88 | a history shorter than `max(ms, ml, tr, v) + 2` gives exactly 0.0 whatever the equity curve; with `maxlev >= 0` the result lies in `[-maxlev, maxlev]` |
| Strategy.TargetFollowsConsensus | aster_btc_bot/strategy.py:47-87 | a long target needs a long base and both momenta positive; a short target needs the opposite; without consensus the target is 0 |
| Strategy.FlatHistoryIsFlat | aster_btc_bot/strategy.py:43-55 | a constant price history gives target 0 |
| Strategy.DeepDrawdownIsFlat | aster_btc_bot/strategy.py:79-82 | any point whose drawdown reaches `dd2` forces the target to 0 |
| Strategy.UptrendGoesLong | aster_btc_bot/strategy.py:43-87 | on a strictly rising history below both drawdown tiers, the target equals the volatility leverage, and it is positive when that leverage can be |
| Strategy.RisingBase | aster_btc_bot/strategy.py:47-64 | a strictly rising history gives base +1 |
| Strategy.RisingMomentum | aster_btc_bot/strategy.py:48-49 | a strictly rising history has positive momentum over any non-zero window |
| Strategy.RisingAboveAverage | aster_btc_bot/strategy.py:58-60 | on a strictly rising history the last close is at or above its moving average (a bull market) |
| Strategy.RisingUpToLast | aster_btc_bot/strategy.py:48-49 | in a strictly rising history every earlier close is below the last one (by induction) |
| PaperExchange.PaperOrder | aster_btc_bot/adapters/aster_placeholder.py:38-44 | the order result has `ok` true and mode `paper`, and echoes the symbol, quantity and reduce-only flag |
| PaperExchange.PaperAdapter.constructor | aster_btc_bot/adapters/aster_placeholder.py:12-15 | a new adapter starts flat (`paper_position == 0.0`) |
| PaperExchange.PaperAdapter.FetchDailyCloses | aster_btc_bot/adapters/aster_placeholder.py:17-24 | returns `closes[-limit:]`, i.e. the last `min(limit, n)` closes in order when `limit > 0` |
| PaperExchange.PaperAdapter.GetMarkPrice | aster_btc_bot/adapters/aster_placeholder.py:26-29 | the mark price is the last close |
| PaperExchange.PaperAdapter.GetPosition | aster_btc_bot/adapters/aster_placeholder.py:31-33 | returns the paper position and changes nothing |
| PaperExchange.PaperAdapter.SetTargetPosition | aster_btc_bot/adapters/aster_placeholder.py:35-44 | the paper position becomes the ordered quantity, and the result is `PaperOrder` of the request |
| PaperExchange.PositionFollowsOrders | aster_btc_bot/adapters/aster_placeholder.py:12-44 | a fresh adapter reports position 0, and after each order it reports the quantity just ordered, reduce-only or not |
| Engine.FreshState | aster_btc_bot/engine.py:19-25 | no decision day, equity curve `[1.0]`, no returns, no last price, not halted; balanced |
| Engine.Enabled | aster_btc_bot/engine.py:58 | the bot is enabled unless the configuration sets `enabled` to false (default True) |
| Engine.BufferMinutes | aster_btc_bot/engine.py:37 | the configured decision buffer, or 10 minutes when absent |
| Engine.MaxDailyLoss | aster_btc_bot/engine.py:53 | the configured daily loss limit, or 0.05 when absent |
| Engine.LoadState | aster_btc_bot/engine.py:15-25 | the stored record when one exists; otherwise exactly the fresh record, which is well-formed, balanced, has no last price and is not halted |
| Engine.AfterBuffer | aster_btc_bot/engine.py:35-38 | for a valid clock, past the buffer iff minutes since midnight reach `min(buffer, 60)`: any hour after 0 passes |
| Engine.DailyReturn | aster_btc_bot/engine.py:46 | for a positive last price, the return is positive iff a long saw the price rise or a short saw it fall; it is 0 for a flat position or an unchanged price |
| Engine.Compound | aster_btc_bot/engine.py:48-49 | a zero return keeps the equity; from positive equity the new point is above iff the return is positive, below iff it is negative, and positive iff the return is above -1 |
| Engine.Mark | aster_btc_bot/engine.py:40-55 | the first mark only sets the last price; a later one appends one return and one compounded equity point and halts iff already halted or the return is at or below `-abs(max_loss)`; both lists keep their prefixes, the curve stays one longer than the returns, and a halt is never cleared |
| Engine.FirstMarkIgnoresPosition | aster_btc_bot/engine.py:41-44 | the first mark does not depend on the position and appends no return |
| Engine.TargetQuantity | aster_btc_bot/engine.py:78-80 | for a positive price the quantity times the price is leverage times notional, with the leverage's sign when notional is positive; otherwise 0 |
| Engine.Cycle | aster_btc_bot/engine.py:57-93 | the five exits in order: disabled iff not enabled; halted iff enabled and halted; already decided iff the marked record's day is today; waiting iff not past the buffer; ok otherwise. Only the last three persist, and the first two leave everything unchanged. The persisted record is the mark at the latest close. Only `ok` sets the day and the position, to the strategy's target on the last 500 closes converted by `TargetQuantity` |
| Engine.NextMarkUsesOrderedQuantity | aster_btc_bot/engine.py:45-46 | the cycle after a decision books the return of the quantity that decision ordered (engine.py:45 with aster_placeholder.py:37) |
| Engine.DecisionIsIdempotentWithinDay | aster_btc_bot/engine.py:67-70 | after an `ok` cycle, the next cycle on the same day returns `already_decided_today` (or `halted`) |
| Engine.Polls | aster_btc_bot/engine.py:95-100 | polling gives one status per clock reading and keeps the record well-formed |
| Engine.DecidedDayStaysDecided | aster_btc_bot/engine.py:67-70 | once the day is decided, further cycles that day place no order and change neither the day nor the position (by induction) |
| Engine.AtMostOneDecisionPerDay | aster_btc_bot/engine.py:67-83 | however often the engine polls within one UTC day, at most one cycle returns `ok` (by induction) |
| Engine.HaltIsPermanent | aster_btc_bot/engine.py:52-61 | once halted, every later cycle returns `halted` (or `disabled`) and nothing changes again (by induction) |
| Engine.ExtendsTrans | aster_btc_bot/engine.py:47-50 | growing the ledger twice is growing it once |
| Engine.CycleExtends | aster_btc_bot/engine.py:57-93 | one cycle only appends to the ledger, keeps it balanced and keeps a halt |
| Engine.LedgerIsAppendOnly | aster_btc_bot/engine.py:47-55 | over any number of polls the equity curve and the returns only grow at their ends, stay balanced, and a halt is never cleared (by induction) |
| Engine.BotEngine.constructor | aster_btc_bot/engine.py:9-25 | the engine starts from the stored record, or from the fresh one when none exists |
| Engine.BotEngine.SaveState | aster_btc_bot/engine.py:27-30 | the state file afterwards holds the current record |
| Engine.BotEngine.MarkToMarket | aster_btc_bot/engine.py:40-55 | the new record is `Mark` of the old one at the adapter's paper position |
| Engine.BotEngine.RunOnce | aster_btc_bot/engine.py:57-93 | the status, the record, the paper position and the state file are exactly those of `Cycle`; a halted engine changes nothing |
| Text.LStrip | daily_podcast/render_two_host_audio.py:12-13 | drops exactly the leading whitespace: the result is a suffix, what was removed is all space, and the result does not start with space |
| Text.RStrip | daily_podcast/render_two_host_audio.py:19 | drops exactly the trailing whitespace |
| Text.Strip | daily_podcast/render_two_host_audio.py:19 | the result is a slice `s[i..j]` with only whitespace before `i` and after `j`, and it is empty or starts and ends with a non-space |
| Text.LStripSpacePrefix | daily_podcast/render_two_host_audio.py:12-13 | whitespace in front disappears under `lstrip` (by induction) |
| Text.StripIdempotent | daily_podcast/render_two_host_audio.py:24 | stripping twice is stripping once |
| Text.StripKeepsNonSpace | daily_podcast/render_two_host_audio.py:20 | a string holding a non-space does not strip to empty |
| Text.Lower | daily_podcast/cleanup_old_content.py:9 | same length, character by character ASCII lower case |
| Text.LowerIdempotent | daily_podcast/cleanup_old_content.py:9 | lower-casing twice is lower-casing once, and whitespace is unchanged |
| Text.LowerAppend | daily_podcast/cleanup_old_content.py:9 | `lower` distributes over concatenation |
| Text.Count | daily_podcast/render_two_host_audio.py:69 | the number of occurrences of the character (its multiplicity in the string), so at most the length and 0 iff the character does not occur |
| Text.IndexOf | daily_podcast/render_two_host_audio.py:18 | the first index of the character, or the length when absent |
| Text.SplitLines | daily_podcast/render_two_host_audio.py:18 | no line holds `\n`, and there are at most as many lines as characters |
| Text.SplitJoinLines | daily_podcast/render_two_host_audio.py:18 | splitting joined lines gives the lines back (by induction) |
| Text.JoinSplitLines | daily_podcast/render_two_host_audio.py:18 | joining the split lines gives the text back, with a final `\n` added when it had none (by induction) |
| TwoHostScript.RestGroup | daily_podcast/render_two_host_audio.py:12-13 | `\s*(.+)$` matches iff the rest is not empty, and the group is a non-empty suffix |
| TwoHostScript.AfterLabel | daily_podcast/render_two_host_audio.py:12-13 | a match captures a non-empty proper suffix with a `:` before it |
| TwoHostScript.HostBranch | daily_podcast/render_two_host_audio.py:12-13 | the `Host\s*X` alternative captures a non-empty suffix |
| TwoHostScript.NameBranch | daily_podcast/render_two_host_audio.py:12-13 | the name alternative captures a non-empty suffix |
| TwoHostScript.MatchLabel | daily_podcast/render_two_host_audio.py:12-13 | a match captures a non-empty suffix of the line (its full shape is `MatchLabelSound`) |
| TwoHostScript.MatchA | daily_podcast/render_two_host_audio.py:12 | a match of `HOST_A_RE` captures a non-empty suffix of the line |
| TwoHostScript.MatchB | daily_podcast/render_two_host_audio.py:13 | a match of `HOST_B_RE` captures a non-empty suffix of the line |
| TwoHostScript.RestGroupSound | daily_podcast/render_two_host_audio.py:12-13 | what `\s*(.+)$` captures is preceded by whitespace only |
| TwoHostScript.AfterLabelSound | daily_podcast/render_two_host_audio.py:12-13 | a match of `\s*:\s*(.+)$` is whitespace, `:`, whitespace and then the captured text |
| TwoHostScript.NameBranchSound | daily_podcast/render_two_host_audio.py:12-13 | a match through the name alternative starts with the name in some case, and the rest of the match is taken from what follows it |
| TwoHostScript.HostBranchSound | daily_podcast/render_two_host_audio.py:12-13 | a match through the `Host` alternative starts with a tag that is `host` in some case, whitespace and the host's letter |
| TwoHostScript.MatchLabelSound | daily_podcast/render_two_host_audio.py:12-13 | every match is exactly whitespace, a tag (the name, or `Host`, whitespace and the letter, in any case), whitespace, `:`, whitespace and the captured text |
| TwoHostScript.NameRunOnIsNoLabel | daily_podcast/render_two_host_audio.py:12-13 | the name followed by a character other than whitespace or `:` (as in `Tonya: hi` or `Tony's note: hi`) is not a label |
| TwoHostScript.OtherHostIsNoLabel | daily_podcast/render_two_host_audio.py:12-13 | `Host` with a different letter (as in `Host C: hi`) is not this host's label |
| TwoHostScript.AfterLabelCaptures | daily_podcast/render_two_host_audio.py:12-13 | spaces, `:`, spaces and text capture exactly that text |
| TwoHostScript.NameBranchAfter | daily_podcast/render_two_host_audio.py:12-13 | the name in any case selects the name alternative |
| TwoHostScript.HostBranchNeedsH | daily_podcast/render_two_host_audio.py:12-13 | a line not starting with `h`/`H` fails the `Host` alternative |
| TwoHostScript.HostBranchAfter | daily_podcast/render_two_host_audio.py:12-13 | `Host`, spaces and a letter in any case select the `Host` alternative iff the letter is the host's |
| TwoHostScript.NameBranchNeedsName | daily_podcast/render_two_host_audio.py:12-13 | a line not starting with the name's first letter fails the name alternative |
| TwoHostScript.MatchNamedLabel | daily_podcast/render_two_host_audio.py:12-13 | `Tony:`/`Kimmi:` in any case, with any surrounding spaces, captures the text after the colon |
| TwoHostScript.MatchHostLabel | daily_podcast/render_two_host_audio.py:12-13 | `Host A:`/`Host B:` in any case, with any spaces, captures the text after the colon |
| TwoHostScript.ParseLine | daily_podcast/render_two_host_audio.py:19-29 | a blank line gives nothing; the A pattern is tried first and gives speaker A iff it matches; speaker B iff A fails and B matches; a part's text is non-empty and already stripped |
| TwoHostScript.ParsedLineIsLabelled | daily_podcast/render_two_host_audio.py:19-29 | a line that gives A's part is a `Tony`/`Host A` label line whose captured text, stripped, is the part's text; likewise for B with `Kimmi`/`Host B` |
| TwoHostScript.LabelText | daily_podcast/render_two_host_audio.py:24 | group 2, stripped, is non-empty and has nothing left to strip |
| TwoHostScript.ParseLineA | daily_podcast/render_two_host_audio.py:22-25 | a stripped line matching A's pattern gives A's part with group 2 stripped |
| TwoHostScript.ParseLineB | daily_podcast/render_two_host_audio.py:26-29 | a stripped line matching only B's pattern gives B's part with group 2 stripped |
| TwoHostScript.Collect | daily_podcast/render_two_host_audio.py:17-29 | at most one part per input line |
| TwoHostScript.ParseScript | daily_podcast/render_two_host_audio.py:16-32 | the appending loop fails with the no-labels message iff no line yields a part, and otherwise returns the parts of the lines in order |
| TwoHostScript.CollectAppend | daily_podcast/render_two_host_audio.py:18-29 | the parts of two blocks of lines are the first block's parts followed by the second's (by induction) |
| TwoHostScript.PartsAppend | daily_podcast/render_two_host_audio.py:18-29 | the same for the script parser's parts: input order is kept |
| TwoHostScript.BlankLineIsSkipped | daily_podcast/render_two_host_audio.py:19-21 | inserting a blank line anywhere does not change the parts |
| TwoHostScript.CollectSkips | daily_podcast/render_two_host_audio.py:18-29 | inserting a skipped line anywhere does not change what is collected |
| TwoHostScript.CollectKeeps | daily_podcast/render_two_host_audio.py:18-29 | a property of every parsed part holds for every collected part (by induction) |
| TwoHostScript.Parts | daily_podcast/render_two_host_audio.py:17-29 | at most one part per line, and every part's text is non-empty and stripped |
| TwoHostScript.EndsWithChar | daily_podcast/render_two_host_audio.py:63-67 | `endswith` of a one-character string tests the last character |
| TwoHostScript.EndBonus | daily_podcast/render_two_host_audio.py:63-68 | at most one end bonus applies, so the bonus is in `[0, 0.10]`, and it is 0 iff the text ends in none of the six cues |
| TwoHostScript.CommaBonus | daily_podcast/render_two_host_audio.py:69 | the comma bonus is in `[0, 0.14]`, and 0 iff there is no ASCII or full-width comma |
| TwoHostScript.PauseForLine | daily_podcast/render_two_host_audio.py:60-70 | `base <= pause <= base + 0.24`, and the pause equals the base iff the stripped text has no end cue and no comma |
| TwoHostScript.PauseIgnoresSurroundingSpace | daily_podcast/render_two_host_audio.py:61 | the pause depends only on the stripped text |
| TwoHostScript.QuestionEarnsQuestionBonus | daily_podcast/render_two_host_audio.py:63-64 | a question without commas gets exactly the base plus 0.10 |
| Cleanup.RFind | daily_podcast/cleanup_old_content.py:35 | the last index holding the character, or -1; nothing after it holds it |
| Cleanup.Suffix | daily_podcast/cleanup_old_content.py:35 | `path.suffix` is empty iff the last dot is missing, first or last; otherwise it is a proper suffix of at least two characters, starting with the dot and holding no other dot |
| Cleanup.StartsWithAny | daily_podcast/cleanup_old_content.py:35 | `any(startswith)` holds iff some prefix in the list starts the name |
| Cleanup.ShouldDelete | daily_podcast/cleanup_old_content.py:8-35 | a deleted name is never a kept project file, and it either starts with `cover` or has a listed extension |
| Cleanup.ShouldDeleteCases | daily_podcast/cleanup_old_content.py:8-35 | a kept name is never deleted; a deleted name is not kept; a `cover` name is deleted whatever its extension; any other name is deleted iff its lower-cased suffix is a listed extension and it starts with a generated prefix |
| Cleanup.RFindLower | daily_podcast/cleanup_old_content.py:35 | lower-casing keeps the dots where they are (by induction) |
| Cleanup.SuffixLower | daily_podcast/cleanup_old_content.py:35 | the suffix of the lower-cased name is the lower-cased suffix |
| Cleanup.CaseInsensitive | daily_podcast/cleanup_old_content.py:9 | names equal up to case get the same verdict |
| Cleanup.OnlyGeneratedFilesAreDeleted | daily_podcast/cleanup_old_content.py:32-35 | a name with neither a `cover` nor a generated prefix, in any case, is never deleted |
| Cleanup.KeptNamesAreNotGenerated | daily_podcast/cleanup_old_content.py:10-30 | no kept project file starts with a generated prefix |
| Cleanup.SuffixOfExtension | daily_podcast/cleanup_old_content.py:35 | a non-empty stem followed by a dotted extension without other dots has that extension as suffix |
| Cleanup.ExtensionShape | daily_podcast/cleanup_old_content.py:24 | every listed extension is a dot followed by at least two characters, none of them a dot or an upper-case letter |
| Cleanup.PrefixesAreLowerCase | daily_podcast/cleanup_old_content.py:25-30 | the generated prefixes are already lower case |
| Cleanup.PrefixedNameShape | daily_podcast/cleanup_old_content.py:35 | prefix + stem + extension starts with the prefix once lower-cased, and its lower-cased suffix is the extension |
| Cleanup.GeneratedPrefixAndExtension | daily_podcast/cleanup_old_content.py:21-35 | a name with a generated prefix and a listed extension is deleted, because no kept name has such a prefix |
| Cleanup.GeneratedFilesAreDeleted | daily_podcast/cleanup_old_content.py:21-35 | every generated prefix + any stem + any listed extension is deleted |

## Left out

- The exchange interface of `aster_btc_bot/adapters/base.py` is not a separate abstract type. The engine holds the one concrete paper adapter, `PaperExchange.PaperAdapter`. A live exchange adapter is not part of this model.
- Reading and writing the JSON state file (`engine.py:16-18, 27-30`) are not modelled. A stored record is passed to the constructor, and each save copies the record into the ghost field `saved`. The JSON round trip is not modelled.
- `datetime.now` is not modelled. Each cycle takes one `Clock` (day, hour, minute) reading. The source reads the clock twice per cycle, in `_utc_day` and in `_after_buffer`, so near midnight the two readings may disagree. The model uses one reading.
- `run_forever`'s endless loop and sleep are not modelled. `Engine.Polls` runs the cycle over a finite list of clock readings, with a fixed close history and without the printing.
- The adapter's CSV reading and `now_ts` are not modelled. The close history is a constant sequence of the adapter.
- Floating point is not modelled. All arithmetic is exact `real`, and `math.sqrt` is an arbitrary non-negative function supplied by the caller.
- Strategy.Sma: `sma(values, 0)` divides by zero in the source, so `n > 0` is required. `Strategy.Target` likewise requires `tr > 0` once the history is long enough.
- Strategy.Target: the strategy divides by every close without a guard, so all closes are required to be positive (`Strategy.Defined`). Window sizes are natural numbers; negative windows are not modelled.
- Strategy.RealizedVolAnnual: its value is only stated to be non-negative. The exact root-mean-square value is only its definition.
- Seqs.Sum: the function has no contract of its own. Its properties are the lemmas `Seqs.SumBounds` and `Seqs.SumAppend`, because a quantified contract on the recursive function makes every proof that mentions a sum too costly.
- Engine.BotEngine.constructor: it requires `symbol == 'BTCUSDT'`, which `aster_btc_bot/main.py:21-22` checks before building the engine. It also requires a record with a non-empty equity curve and a non-zero last price, and a non-empty history of positive closes on which the strategy is defined. The source would crash on an empty curve or history and divide by zero otherwise.
- Engine.Cycle: a kill switch tripped by the mark in a cycle does not stop that cycle from deciding. The source checks `halted` only before marking, and the model keeps that. It is not treated as a bug.
- Engine.AfterBuffer: a buffer of 60 minutes or more acts as exactly one hour, because any hour after 0 passes. This is the source's behaviour and is stated, not corrected.
- Text: whitespace is ASCII space, tab, `\n`, `\r`, `\v` and `\f`, and case folding maps `A`-`Z` only. Python's `strip()` and `\s` also treat `\x1c`-`\x1f` and the non-ASCII Unicode spaces as whitespace; these are not modelled, and neither is Unicode case mapping. `splitlines` splits on `\n` only. Python also splits on `\r`, `\r\n`, `\v`, `\f`, `\x1c`-`\x1e`, `\x85`, `\u2028` and `\u2029`; those are not modelled.
- TwoHostScript.MatchLabel: `.` in the regex does not match `\n`. A line from `splitlines` holds no `\n`, so the matcher does not model that case.
- TwoHostScript.ParseScript: the error is a `Failure` value, not a raised `ValueError`.
- Audio synthesis, silence clips, random rate jitter, timeline assembly, video rendering and the YouTube clients are not modelled. They depend on subprocesses, audio durations, randomness, fonts or the network.
- The directory walk, modification-time cutoff and deletion in the cleanup `main` (`cleanup_old_content.py:38-65`) are not modelled. They are filesystem I/O; only `should_delete` is modelled.
