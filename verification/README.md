# Agora voting frame — a verified model

Agora Voting is a three-frame voting app (`api/index.tsx`). The `/` frame
invites the user to start. The `/vote` frame greets the user with their avatar
and offers the buttons For, Against, Abstain and Result. The `/results` frame
shows how many votes each vote type has. Votes live in a MySQL table `votes`
with the columns `user_id` and `vote_type`.

This project models the part of that file with behaviour worth stating:

- **BallotStore** (`ballot_store.dfy`): the `votes` table as a sequence of rows,
  held in the `VoteTable` class. It holds `hasVoted` (a `COUNT(*)` on `user_id`)
  and `recordOrUpdateVote`. That method checks first, then either rewrites the
  user's rows with an `UPDATE` or appends a row with an `INSERT`. The pure
  function `Recorded` gives the table after a call, and the lemmas about it
  prove its properties: at most one row per user is kept, other users' rows
  are untouched, recording twice changes nothing more, and the last write wins.
- **TallyAggregator** (`tally_aggregator.dfy`): the `/results` query
  `SELECT vote_type, COUNT(*) ... GROUP BY vote_type` and the `forEach` loop
  that fills the `results` dictionary. `Tally` is the specification. The lemmas
  prove that the counts are the multiplicities of the vote types, that they are
  positive, that they add up to the number of rows, and that with one row per
  user each count is the number of users who chose that type.
- **Avatar** (`avatar.dfy`): the `src` of the avatar image. It is
  `/images/no_avatar.png` when the lower-cased picture url ends in `.webp`, and
  the url itself otherwise.
- **SessionRouter** (`session_router.dfy`): the three frames, the buttons of
  each, where a press leads, and the handler of each frame (`Serve`). It states
  which requests write to the table and what each handler renders.

Where one might expect otherwise, the model follows the code:

- The code does not validate the vote type. Any non-empty `buttonValue` that
  reaches `/vote` is stored (`SessionRouter.AnyValueIsRecorded`).
- A request without `fid` votes under the key `''`. It is not rejected.
- The tally omits vote types that have no rows. It does not list all three
  choices with zero counts (`SessionRouter.VoteChangeScenario`).
- Recording is a check followed by an `UPDATE` or `INSERT`, not an atomic
  upsert. The code does not rely on a unique key, so "one row per user" is an
  invariant that sequential calls preserve, not a property of the table.
- A `/vote` request without frame data (a plain load of the frame) throws when
  `fid` is destructured, before anything else (`Failure.NoFrameData`).
- The profile lookup runs before the vote is written. If the fetch, the JSON
  decoding or the read of `users` throws, no vote is recorded
  (`Lookup.LookupError`). If `users` is empty, or its first user has no string
  `pfp_url`, the vote is recorded and the rendering then fails
  (`Lookup.NoPicture`).
- `results` is a plain JavaScript object. Assigning to `results['__proto__']`
  runs the prototype setter, which ignores a number, so a vote type
  `__proto__` is stored but never listed (`TallyAggregator.ShownTally`).
- The table has no timestamp column in any query the code runs, so rows carry
  only `user_id` and `vote_type`.

## Model

| member | source | states |
|---|---|---|
| `BallotStore.CountUser` | api/index.tsx:104-107 | The `COUNT(*) ... WHERE user_id = ?` count equals the multiplicity of the user id in the multiset of all `user_id` values. |
| `BallotStore.CountUserPositive` | api/index.tsx:104-107 | The `COUNT(*) ... WHERE user_id = ?` count is positive exactly when some row belongs to the user. |
| `BallotStore.HasVoted` | api/index.tsx:103-108 | `hasVoted(u)` is true exactly when some row of the table has `user_id = u`. |
| `BallotStore.UpdateWhere` | api/index.tsx:115 | The `UPDATE` keeps the row count, sets `vote_type` on every row of the user, and leaves every other row as it was. |
| `BallotStore.Recorded` | api/index.tsx:112-124 | After recording, some row is `(u, t)` and every row of `u` has type `t`. Every earlier row keeps its `user_id`, and rows of other users are unchanged. The row count is unchanged when `u` had a row; otherwise exactly one row `(u, t)` is appended. |
| `BallotStore.RecordedKeepsOnePerUser` | api/index.tsx:112-124 | If no user has two rows before a call, none has after it, and the set of voters grows by exactly `u`. |
| `BallotStore.RecordedLastWriteWins` | api/index.tsx:112-124 | Recording `first` and then `second` for the same user gives the same table as recording `second` alone. |
| `BallotStore.RecordedIdempotent` | api/index.tsx:112-124 | Recording the same vote twice gives the same table as recording it once. |
| `BallotStore.VoteTable.RecordOrUpdateVote` | api/index.tsx:112-124 | The method changes the table to `Recorded(old rows, t, u)` and preserves "at most one row per user". |
| `TallyAggregator.CountTypePositive` | api/index.tsx:185 | A vote type's row count is positive exactly when some row carries that type. |
| `TallyAggregator.CountTypeIsMultiplicity` | api/index.tsx:185 | The per-type row count equals the multiplicity of that type in the multiset of all `vote_type` values. |
| `TallyAggregator.DistinctTypes` | api/index.tsx:185 | The group keys have no repeats, and they are exactly the vote types present in the table. |
| `TallyAggregator.GroupBy` | api/index.tsx:185-187 | The grouped query yields one group per vote type present, with no repeats. Each group's count is that type's row count, and it is positive. |
| `TallyAggregator.CollectResults` | api/index.tsx:189-192 | After the loop, the keys of `results` are exactly the groups' vote types other than `__proto__`, which a plain object does not take as a key. Each key holds the count of the last group with that type. |
| `TallyAggregator.QueryResults` | api/index.tsx:185-192 | The dictionary that the `/results` handler builds equals `Tally` of the table without the key `__proto__`. |
| `TallyAggregator.TallyIsMultiplicity` | api/index.tsx:185-192 | A vote type is a key of the tally exactly when it occurs in the table. Its value is its number of rows, which is positive, so no zero entries appear. |
| `TallyAggregator.TallySum` | api/index.tsx:185-192 | The tally's counts add up to the number of rows. |
| `TallyAggregator.CountTypeIsVoters` | api/index.tsx:185 | With one row per user, a vote type's count is the number of distinct users whose row has that type. |
| `TallyAggregator.RowsAreVoters` | api/index.tsx:112-124 | With one row per user, the table has as many rows as distinct voters. |
| `TallyAggregator.TallyCountsVoters` | api/index.tsx:185-192 | With one row per user, each tally entry is the number of users whose current vote is that type, and the counts add up to the number of distinct voters. |
| `TallyAggregator.CountTypeReplace` | api/index.tsx:115 | Rewriting one row changes each type's count by at most one: minus one for the old type, plus one for the new type. |
| `TallyAggregator.ShownTallySum` | api/index.tsx:189-194 | The listed counts add up to the number of rows less the rows of type `__proto__`, and `__proto__` is never listed. |
| `TallyAggregator.RecordedMovesOneVote` | api/index.tsx:112-124 | With one row per user, a first vote adds one to its type's count. A changed vote moves one from the old type to the new one, and all other counts stay the same. |
| `Avatar.WebpSuffixCases` | api/index.tsx:158 | The lower-cased url ends with `.webp` exactly when its last five characters are `.`, `w`/`W`, `e`/`E`, `b`/`B` and `p`/`P`. |
| `Avatar.AvatarSrc` | api/index.tsx:158 | The `src` is `/images/no_avatar.png` when the url ends in `.webp` in any letter case, and the url unchanged otherwise. |
| `Avatar.AvatarNeverWebp` | api/index.tsx:158 | The image shown is never a `.webp` url, whatever the profile holds. |
| `SessionRouter.Intents` | api/index.tsx:173-178 | `/` has one button, `/vote` four and `/results` two (lines 81 and 230-232 likewise). Each button either goes to a route or sends a value, never both. Only `/vote` has value buttons; each sends one of `for`, `against` and `abstain`, and each of the three is offered. No button leads back to `/`. |
| `SessionRouter.StoreWrite` | api/index.tsx:126-129 | No write happens exactly when the frame is not `/vote`, the frame data is absent, the lookup threw, or `buttonValue` is missing or empty. A write stores the value as sent, non-empty, under `fid`, or under `''` when `fid` is missing. |
| `SessionRouter.Next` | api/index.tsx:173-178 | On `/vote` the three value buttons stay on `/vote` and "Result" goes to `/results`. The `/` button goes to `/vote` (line 81). On `/results`, "Back" goes to `/vote` and "Refresh" to `/results` (lines 230-231). |
| `SessionRouter.PressWrites` | api/index.tsx:126-129 | Among the frames' own buttons, exactly the three value buttons of `/vote` cause a write. They write `for`, `against` or `abstain` under `fid`, or under `''` when `fid` is absent. |
| `SessionRouter.AnyValueIsRecorded` | api/index.tsx:127-128 | Any non-empty `buttonValue` that reaches `/vote` becomes the user's vote type. The value is not validated. |
| `SessionRouter.Serve` | api/index.tsx:51-234 | A handled request changes the table only through `StoreWrite`. The `/` and `/results` handlers never write. `/` renders its one button. `/vote` fails without frame data before any write; fails before the write when the lookup throws; records the vote and then fails when there is no picture url; and otherwise renders the fallback-checked avatar and the name. `/results` renders `ShownTally` of the table. |
| `SessionRouter.ReplayKeepsOneVotePerUser` | api/index.tsx:112-129 | Starting from an empty table, after any sequence of requests no user has two rows and the tally adds up to the number of voters. |
| `SessionRouter.VoteChangeScenario` | api/index.tsx:112-129 | Pressing For and then Against as `u1` leaves the single row `(u1, against)`, and the tally is `{against: 1}` with no zero entries. |

## Left out

- The MySQL connection, `dotenv` and environment configuration (lines 16-28) are process bootstrap. The table is an in-memory sequence, and every query is assumed to succeed: a rejected query is not modelled.
- The Neynar profile fetch and JSON decoding (lines 91-100) are network I/O. Their outcome is the input `Lookup`: an exception, an empty `users` array, or a picture url and display name.
- The Frog app, the Vercel `handle` exports, font options and route registration (lines 1-2, 30-49, 239-240) wrap libraries that are not part of this model. The model assumes that a button's press requests its `action` route (the same frame when it has none) and carries its `value` as `buttonValue`.
- The JSX markup and styles (lines 53-79, 132-172, 194-228) are presentation. The views keep only the avatar `src`, the display name, the tally and the buttons. The "Total vote for X is N" lines and their key order are not modelled.
- Concurrent requests from the same user can interleave the check and the write (lines 113-121). That race could duplicate a row. Only sequential calls are modelled.
- The `console.log` calls (lines 117, 122) and the `parseInt` of the count column (line 191) are left out. Counts are natural numbers.
- `Avatar.AvatarSrc`: `toLowerCase` is modelled on ASCII letters only. For the `.webp` test this is exact: no other character lower-cases to one of `.webp`'s characters, and the one that lower-cases to two characters cannot end up among them.
- The table's schema is not in the source. The model assumes text columns `user_id` and `vote_type` with no length limit, no enumeration and no unique key, compared exactly (case-sensitive, as with a binary collation). Under a case-insensitive collation, `WHERE user_id = ?` and `GROUP BY vote_type` would merge values that differ only in case; under an `ENUM` or short `VARCHAR` column, the database would reject or cut values that `AnyValueIsRecorded` stores.
- A missing `display_name` renders as nothing; the model takes the display name as a string, with the empty string for that case.
- `TallyAggregator.GroupBy`: the order of the grouped rows is not fixed by the query. The model lists groups by first appearance. `CollectResults` is proved for any order, and the dictionary it builds does not depend on the order.
