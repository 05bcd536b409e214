# Rocket game and leaderboard: a Dafny model

This project models two parts of the site's mini-game:

- the leaderboard service (`src/services/leaderboard.js`);
- the mutable state record of the rocket game (`src/components/RocketGame.jsx`) and the helpers that change it.

The leaderboard service keeps one record per player: the fastest, and the earliest one on a tie. It also:

- sorts the records by time with a stable sort;
- cuts the list to `limit` (10 when stored) and numbers the ranks from 1;
- validates and normalises a submission: upper-cases the name, cuts it to 20 characters and rounds the time;
- runs the local read-modify-write of the stored list;
- computes the rank a time would get;
- prints a time as `M:SS.mmm` or `S.mmm`.

The game holds one state record. Its helpers change it step by step:

- `shootLaser` appends a laser;
- `spawnAsteroid` appends an asteroid whose hit points depend on its radius;
- `explodeAsteroid` removes an asteroid with `splice`, scores a point and may start the boss warning;
- `destroyRocket` costs a life and may end the run;
- `spawnBoss` brings in the boss;
- the frame loop updates the run clock, which freezes once the run is lost or won;
- `formatTimeHUD` prints the clock as `M:SS.t`.

Files:

- `wrappers.dfy`: the `Option` and `Result` types.
- `decimal.dfy` (module `Decimal`): JavaScript's decimal rendering of integers, `padStart` with zeros, and its truncating `%`. It also holds a digit-string reader, used to state that the printed times read back.
- `leaderboard.dfy` (module `Leaderboard`):
  - `deduplicateBest`, as a loop over an ordered key list and a map, proved equal to a fold `DedupBest`;
  - the sort, slice and rank chain;
  - `getPlayerRank`, `submitScore` and `formatTime`;
  - a class `LocalStore` whose field is the one local-storage item the service reads and writes.
- `rocket_game.dfy` (module `RocketGame`): the class `GameState` with the fields of the state record, its transition methods, and `formatTimeHUD`.

JavaScript semantics are written out where they matter:

- Map insertion order;
- the stable `Array.prototype.sort`;
- `slice(0, limit)` with a negative `limit`;
- `splice(idx, 1)` with a negative or out-of-range `idx`;
- floored division (`Math.floor(a / b)`);
- the truncating `%`;
- `Math.round` (halves go up);
- `Math.floor(Math.random() * n)`.

Random values are parameters: a `Unit` is a real in [0, 1). `Math.cos`/`Math.sin` become a parameter `circle` that maps an angle to a direction. The clock is an `int` parameter.

The frame loop (src/components/RocketGame.jsx:241-242) holds only a placeholder. Movement, collisions, the respawn countdown and the boss's behaviour are therefore not modelled; the model has the helpers that exist. That the end of a run is reported once is kept as a class invariant: a ghost counter of `onGameOver` calls is 1 exactly when the run is over.

## Model

| member | source | states |
|---|---|---|
| Leaderboard.Keep | src/services/leaderboard.js:27-30 | No contract of its own: one loop step on the map's values. What it keeps is proved in `ValuesAdd`, `ValuesReplace` and `DedupBestKeepsBest`. |
| Leaderboard.DedupBest | src/services/leaderboard.js:24-33 | No contract of its own: the fold of `Keep` over the records. Its players, best records and order are proved in `DedupBestNames`, `DedupBestKeepsBest`, `DedupBestOrder` and `DedupBestUnique`. |
| Leaderboard.DeduplicateBest | src/services/leaderboard.js:24-33 | The Map loop returns exactly the fold `DedupBest` of the records (loop invariant: the map's values in key-insertion order equal the fold over the prefix read so far). |
| Leaderboard.DedupBestNames | src/services/leaderboard.js:24-33 | The result has at most one record per player, and the set of players is the input's set of players. |
| Leaderboard.DedupBestKeepsBest | src/services/leaderboard.js:28-30 | Every kept record is, for its player, no slower than any record of that player, and strictly faster than every earlier one (the strict `<` keeps the earliest on a tie). |
| Leaderboard.DedupBestOrder | src/services/leaderboard.js:25-32 | Kept records come in the order in which their players first appear in the input (Map insertion order). |
| Leaderboard.DedupBestUnique | src/services/leaderboard.js:24-33 | A list with one record per player is returned unchanged. |
| Leaderboard.IndexOfNameInValues | src/services/leaderboard.js:28 | In the map's values, `best.has(name)` holds exactly when the first record named `name` exists, and that record sits where `name` sits in the key order. |
| Leaderboard.ValuesAdd | src/services/leaderboard.js:29 | `best.set` of a new name keeps the key order well-formed and appends the record to the values, as one fold step does. |
| Leaderboard.ValuesReplace | src/services/leaderboard.js:28-29 | `best.set` of a listed name with a faster record keeps the key order and replaces that player's value in place, as one fold step does. |
| Leaderboard.InsertByTime | src/services/leaderboard.js:50 | No contract of its own: one step of a stable insertion sort. Where the record lands is proved in `InsertByTimeSplit`. |
| Leaderboard.SortByTime | src/services/leaderboard.js:146 | No contract of its own: the array sort ascending by milliseconds. Order, contents and players in `SortByTimeSpec`, stability in `SortStable`, identity on sorted input in `SortSorted`. |
| Leaderboard.SortByTimeSpec | src/services/leaderboard.js:50 | Sorting yields a list ordered by time, with the same records (as a multiset) and the same players, and it does not repeat a player. That the sort is stable is `SortStable`. |
| Leaderboard.SortSorted | src/services/leaderboard.js:146 | The stable sort leaves a list that is already in time order exactly as it is. |
| Leaderboard.InsertByTimeSplit | src/services/leaderboard.js:50 | One insertion step splits the list at a point `j`: the record goes in at `j`, the record just before `j` is not slower than it, and every record from `j` on is strictly slower. So a record never overtakes an equal time (a stable sort). |
| Leaderboard.InsertStable | src/services/leaderboard.js:50 | For every time `t`, inserting a record keeps the records with that time in the order of the list followed by the new record. |
| Leaderboard.SortStable | src/services/leaderboard.js:146 | The sort is stable: for every time `t`, the records with that time come out in their input order. So of two tied records the earlier ranks first, and the cut at 10 drops the later one. |
| Leaderboard.SliceEnd | src/services/leaderboard.js:51 | `slice(0, limit)` keeps `min(limit, len)` records for a non-negative limit, and drops `-limit` records from the end for a negative one. |
| Leaderboard.Take | src/services/leaderboard.js:51 | `slice(0, limit)` returns a prefix of the list. It is exactly `limit` long when `0 ≤ limit ≤ len`, and the whole list when `limit ≥ len`. |
| Leaderboard.Rank | src/services/leaderboard.js:52 | The list keeps its length and records, and the record at index `i` gets rank `i + 1`. |
| Leaderboard.RankedTop | src/services/leaderboard.js:135-138 | The ranked read never has more than `limit` records for a non-negative `limit`. Its shape, order, best records and cut are proved in the four `RankedTop…` lemmas below. |
| Leaderboard.RankedTopShape | src/services/leaderboard.js:48-52 | The ranked read has `slice(0, limit)` of the deduplicated length, so never more than `limit` records, and ranks 1, 2, … in list order. |
| Leaderboard.RankedTopOrdered | src/services/leaderboard.js:48-52 | The ranked read is sorted by time and lists each player at most once. |
| Leaderboard.RankedTopBest | src/services/leaderboard.js:135-138 | Each shown record is its player's best record in the input. |
| Leaderboard.RankedTopIsTop | src/services/leaderboard.js:135-137 | Any player's best record that the cut leaves out is no faster than every shown record. |
| Leaderboard.LocalStore.constructor | src/services/leaderboard.js:133 | The store starts with the given local-storage item, or none. |
| Leaderboard.LocalStore.LocalLeaderboard | src/services/leaderboard.js:132-139 | The stored list, or the fallback list when nothing is stored, comes back ranked: at most `limit` long, ranks `i + 1`, sorted by time, one record per player. |
| Leaderboard.LocalStore.GetLeaderboard | src/services/leaderboard.js:36-56 | The remote list when one was fetched, otherwise the local read, has the same four properties. |
| Leaderboard.CountFaster | src/services/leaderboard.js:128 | The number of shown records faster than `t` is at most the board's length. |
| Leaderboard.PlayerRank | src/services/leaderboard.js:128 | The rank lies between 1 and the board length plus 1. Monotonicity in `PlayerRankMonotone`, the insertion point in `PlayerRankPosition`. |
| Leaderboard.PlayerRankMonotone | src/services/leaderboard.js:128 | A slower time never gets a better rank, and every rank is between 1 and the board length plus 1. |
| Leaderboard.PlayerRankPosition | src/services/leaderboard.js:128 | On a time-ordered board, rank − 1 is the insertion point of `t`: all records before it are faster than `t`, and none from it on is. |
| Leaderboard.LocalStore.GetPlayerRank | src/services/leaderboard.js:126-129 | The rank against the top-10 read lies in 1..11 and is the insertion point of the time in that board. |
| Leaderboard.Round | src/services/leaderboard.js:67 | `Math.round` returns an integer within half a unit of its input: `r − 0.5 ≤ x < r + 0.5`, so halves go up. |
| Leaderboard.UpperChar | src/services/leaderboard.js:66 | Exactly the lower-case ASCII letters change, each to a capital; the result is never a lower-case ASCII letter. |
| Leaderboard.ToUpper | src/services/leaderboard.js:66 | `toUpperCase` keeps the length, maps each character as `UpperChar` does, and leaves no lower-case ASCII letter. |
| Leaderboard.NewEntry | src/services/leaderboard.js:60-69 | An empty name or a zero time fails with "Player name and time are required", and only those inputs fail. Otherwise the name is the upper-cased input cut to 20 characters, with no lower-case ASCII letter left. The time is the rounded input (within half a millisecond). The creation time is the clock reading. |
| Leaderboard.LocalStore.SubmitScore | src/services/leaderboard.js:60-73 | Returns the validated entry. On failure the store is untouched; on success the entry is merged into the stored list as `submitLocal` does. |
| Leaderboard.LocalStore.SubmitLocal | src/services/leaderboard.js:141-150 | Returns the submitted entry. The stored list becomes the merge of the previous list (empty when nothing was stored) with the entry, and it is well-formed: one record per player, sorted by time, at most 10 long. |
| Leaderboard.Merge | src/services/leaderboard.js:144-147 | The written list never has more than 10 records. Its well-formedness, origin and what it keeps are proved in the four `Merge…` lemmas below. |
| Leaderboard.MergeWellFormed | src/services/leaderboard.js:144-147 | Whatever was stored before, the written list has one record per player, is sorted by time and has at most 10 records. |
| Leaderboard.MergeFromInput | src/services/leaderboard.js:144-147 | Every written record was in the previous list or is the submitted one. |
| Leaderboard.MergeKeepsOthers | src/services/leaderboard.js:144-147 | On a well-formed stored list, every other player's record stays. The one exception: a new player joining a full list may push out the tenth record. |
| Leaderboard.MergeKeepsSubmitter | src/services/leaderboard.js:144-147 | A listed player keeps the faster of their old and new records (the old one on a tie). A new player gets in whenever the list has room. |
| Leaderboard.FormatTime | src/services/leaderboard.js:113-123 | No contract of its own: the JavaScript arithmetic written out. The round trip and the two text forms are proved in `FormatTimeRoundTrip`. |
| Leaderboard.FormatTimeRoundTrip | src/services/leaderboard.js:113-123 | For `ms ≥ 0` the text reads back as exactly `ms`. It holds a colon exactly from one minute on, so the two forms are `M:SS.mmm` and `S.mmm`. The reader accepts only seconds below 60, two second digits after the colon and three millisecond digits. |
| Leaderboard.ParseLongTime | src/services/leaderboard.js:120 | `M:SS.mmm` with the seconds padded to 2 and the milliseconds to 3 reads back as its value. |
| Leaderboard.ParseShortTime | src/services/leaderboard.js:122 | `S.mmm` reads back as its value and contains no colon. |
| Decimal.NatToString | src/services/leaderboard.js:120 | `toString()` of a natural number is a non-empty digit string without a leading zero, with 1, at most 2 or at most 3 digits below 10, 100 or 1000. |
| Decimal.NatToStringValue | src/services/leaderboard.js:120 | The digits of `n` read back as `n`. |
| Decimal.IntToString | src/services/leaderboard.js:120 | The text of an integer (also used for the HUD at src/components/RocketGame.jsx:222) is non-empty. It starts with `-` exactly for a negative number, and the rest is all digits. |
| Decimal.IntToStringValue | src/services/leaderboard.js:120 | The digits after the optional minus sign read back as the number's magnitude. |
| Decimal.PadStart | src/services/leaderboard.js:120 | `padStart(width, "0")` yields `max(len, width)` characters: zeros followed by the original string. |
| Decimal.PaddedNat | src/services/leaderboard.js:120-122 | A number below 10^width, padded to `width`, has exactly `width` digits and still reads as itself. |
| Decimal.JsRem | src/services/leaderboard.js:116-117 | JavaScript's `%` takes the dividend's sign and stays below the divisor in size. It equals Dafny's remainder for a non-negative dividend or an exact multiple, and that remainder minus the divisor otherwise. |
| RocketGame.GameState.constructor | src/components/RocketGame.jsx:80-101 | Every field starts as in the initial record: 3 lives, no boss, normal phase, empty lists, start time = `Date.now()`. The game invariant `Valid` holds. |
| RocketGame.GameState.ShootLaser | src/components/RocketGame.jsx:103-116 | Nothing happens while the rocket is down or the run is over. Otherwise exactly one laser is appended at the nose (18 along the heading) with velocity 16 along the heading and life 60, and the earlier lasers stay as they were. |
| RocketGame.GenerateShape | src/components/RocketGame.jsx:3-10 | Gives `points` vertices (none for `points ≤ 0`); vertex `i` is at angle `i/points` of a turn, scaled by the radius. |
| RocketGame.Pick | src/components/RocketGame.jsx:140 | `Math.floor(Math.random() * n)` lies in `0 .. n-1`. |
| RocketGame.HitPoints | src/components/RocketGame.jsx:153-154 | Hit points are 1..3: 3 exactly when the radius exceeds 28, 2 exactly when it lies in (20, 28]. |
| RocketGame.HitPointsMonotone | src/components/RocketGame.jsx:153 | A bigger asteroid never has fewer hit points. |
| RocketGame.NewAsteroid | src/components/RocketGame.jsx:140-156 | The new asteroid has a radius in [15, 40), `hp == maxHp` from the radius rule and a crack seed in 0..3. It sits 40 outside one edge and moves inward. |
| RocketGame.SpawnHitPoints | src/components/RocketGame.jsx:147-154 | Random draws above 0.52 give 3 hit points, draws in (0.2, 0.52] give 2, and the rest give 1. |
| RocketGame.GameState.SpawnAsteroid | src/components/RocketGame.jsx:137-157 | Nothing happens in the boss phase. Otherwise exactly one asteroid is appended: the `NewAsteroid` of the draws, with a `5 + floor(4r)`-gon outline from `generateShape`. Earlier asteroids stay. |
| RocketGame.BurstParticle | src/components/RocketGame.jsx:163-170 | A particle starts at the burst centre, with max life 60, a life in [25, 60) and a colour from the six-colour palette. |
| RocketGame.GameState.SpawnExplosion | src/components/RocketGame.jsx:159-172 | Exactly `count` particles are appended (none when `count ≤ 0`); particle `p` is `BurstParticle` for index `p`. Earlier particles stay. |
| RocketGame.SpliceStart | src/components/RocketGame.jsx:178 | `splice`'s start index: taken as is within the array, counted from the end when negative, clamped to `0..len`. |
| RocketGame.SpliceOne | src/components/RocketGame.jsx:178 | `splice(idx, 1)` shortens a non-empty array by one exactly when `idx` is below its length (a very negative `idx` removes the first element); otherwise the array keeps its length. |
| RocketGame.SpliceOneRemovesAt | src/components/RocketGame.jsx:178 | For an index inside the array, exactly that element goes: earlier ones keep their places, later ones move down by one, and the multiset loses only that element. |
| RocketGame.SpliceOnePastEnd | src/components/RocketGame.jsx:178 | An index at or past the end removes nothing. |
| RocketGame.SpliceOneFromEnd | src/components/RocketGame.jsx:178 | A negative index within the length removes the element that many places from the end. |
| RocketGame.SpliceOneSubset | src/components/RocketGame.jsx:178 | `splice(idx, 1)` never adds an element and removes at most one. |
| RocketGame.GameState.ExplodeAsteroid | src/components/RocketGame.jsx:174-184 | Appends `20 + floor(radius)` particles and removes the asteroid as `splice(idx, 1)` does. The score rises by exactly 1. The phase becomes warning with a 180-frame countdown exactly when the new score reaches 10 while there is no boss, no defeated boss and the phase is normal; otherwise phase and countdown stay. |
| RocketGame.GameState.DestroyRocket | src/components/RocketGame.jsx:186-200 | Does nothing while invincible or down. Otherwise it appends 30 particles, sets shake 15, costs exactly one life and puts the rocket down. With no lives left the run ends and the score is reported once; otherwise the respawn countdown is set to 90. Lives stay in 0..3. |
| RocketGame.LivesStayInRange | src/components/RocketGame.jsx:192-196 | In every valid state a rocket that is up has a life, and a finished run has 0 lives and was reported exactly once. |
| RocketGame.GameState.SpawnBoss | src/components/RocketGame.jsx:202-215 | The boss appears centred, above the top (y = −80), aiming for 22% of the height. It has hp = maxHp = 50, phase "enter", tier 1 and all timers and the phase flash at 0. The game is then in the boss phase. |
| RocketGame.GameState.UpdateElapsed | src/components/RocketGame.jsx:227-229 | While the run is neither lost nor won, the clock is `now − startTime`; afterwards it stays frozen. |
| RocketGame.FormatTimeHUD | src/components/RocketGame.jsx:217-223 | No contract of its own: the JavaScript arithmetic written out. The round trip is proved in `FormatTimeHUDRoundTrip`. |
| RocketGame.HudSplit | src/components/RocketGame.jsx:218-221 | For a non-negative time, the seconds of the minute are below 60 and the tenths digit below 10. Minutes, seconds and tenths add up to the time cut to whole tenths. |
| RocketGame.ParseHudText | src/components/RocketGame.jsx:222 | `M:SS.t` with the seconds padded to 2 and one tenths digit reads back as its value. |
| RocketGame.FormatTimeHUDRoundTrip | src/components/RocketGame.jsx:217-223 | For a non-negative time, the HUD text reads back as the time cut down to whole tenths of a second. Reading it back requires two second digits below 60 and a single tenths digit. |

## Left out

- Remote storage: the JSONBin requests in `getLeaderboard` and `submitScore` (src/services/leaderboard.js:41-56, 75-109) are I/O. `GetLeaderboard` takes the fetched list as a parameter (None for "not configured" or "request failed"). The remote read-modify-write path of `submitScore` is not modelled; the model keeps only the local path, which is the fallback on any remote failure.
- `JSON.parse`/`JSON.stringify` and `localStorage` itself: the store is one `Option<seq<Entry>>` field. Parse errors and stored data that is not an array are not modelled.
- The environment configuration (`isConfigured`) is not modelled; the choice between remote and local becomes the `fetched` parameter.
- Leaderboard.NewEntry: JavaScript truthiness of non-string names and of `NaN`, `null` or `undefined` times is not modelled. The name is a string and the time a real. Only the empty name and the time 0 are falsy. The 20-character cut counts code points (Dafny characters), while `slice(0, 20)` counts UTF-16 code units; so a name with characters outside the Basic Multilingual Plane keeps more of them here, and a cut through a surrogate pair, which leaves a lone surrogate in JavaScript, is not represented.
- Leaderboard.ToUpper: upper-cases ASCII letters only; the full Unicode mapping of `toUpperCase` is not modelled.
- Leaderboard.Entry: the `id: Date.now()` field that `submitLocal` adds to the stored copy is not modelled, and neither is the `created_at` ISO text. The clock reading `createdAt` stands for both.
- Leaderboard.FormatTimeRoundTrip: stated for `ms ≥ 0`. `FormatTime` itself follows JavaScript for negative inputs (floored division, truncated `%`, a minus sign), but no round trip is claimed there.
- RocketGame.FormatTimeHUDRoundTrip: stated for `ms ≥ 0`, for the same reason.
- Audio (`playLaserSound`, `playExplosionSound`) is a foreign call with no effect on the state.
- Canvas, DOM, resize, mouse tracking and `requestAnimationFrame` are not part of the model. The state record's `mouse` field is therefore not modelled.
- The state record's `bossProjectiles` field is not modelled; no modelled helper touches it.
- Random numbers and trigonometry are parameters (`Unit` draws and the `circle` function), so angles and positions are exact functions of those values. Floating-point rounding is not modelled; coordinates are reals.
- The screen-shake jitter and decay in `draw` are left out (src/components/RocketGame.jsx:231-235). The model keeps only the intensity that `destroyRocket` sets.
- The per-frame simulation (movement, collisions, respawn countdown, boss tiers) has only a placeholder in the code and is not modelled.
- RocketGame.GameState.DestroyRocket: `onGameOver(score)` is modelled as a returned `Some(score)`, together with a ghost counter of reports. The callback's own effects belong to the host page and are not modelled.
