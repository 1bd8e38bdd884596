# Podium, modelled and proved

Podium keeps an append-only log of scores in Postgres and a set of leaderboards in Redis derived
from it. This project models the parts of Podium whose correctness is not evident from reading one
function, and proves what they promise: that the boards moved by deltas agree with a plain
aggregate over the log through retries, crashes, expiry and rebuilds, and that the state machines
around them (sessions and games, refresh tokens, the realtime hub, the limiter) keep their promises
in every run.

## How it is laid out

**The leaderboards.** An instant is a number of nanoseconds from 0000-01-01 00:00 UTC. `Calendar`,
`Windows`, `Decimal` and `Keys` do the calendar and the key strings; once those are shown to name
boards and windows exactly, the other modules use the datatype `Keys.Key` for keys. `Redis` is a
class over a map of sorted sets with expiry times. `Submit` is the script and the method that runs
it; `Aggregate` is the simple answer, computed from a set of events at one go; `Refinement` shows
that the first stays equal to the second. `Delivery` is the machine of everything that can happen
between the two stores, and `Projector` the code that drives it. `History` and `Rebuild` recreate
boards from the log, and `Recovery` shows what holds afterwards. `Listing`, `Ranking` and `Reports`
read them; `Late` shows what there is to read once a window is no longer kept.

**The machines around them.** `Tokens`, `RateLimit`, `Session` with the five games (`Games`,
`NumberGuess`, `Reaction`, `Memory`, `MathSprint`, `WordScramble`, unified by `Engine`), and the
realtime side: `Channels`, `Fanout` (the hub as steps that interleave), `Hubs` (its methods; each that
changes the hub is a step of that machine or several, `Deliver` being the inner part of two) and
`Connections`.

**The whole way.** `EndToEnd` runs the sessions and the delivery of their scores as one machine, from
a move in a game to a place on a board.

Where Podium changes things in place, so does the model: a class with methods, each proved against
a function or a step of a machine, about which the lemmas then speak.

## Conventions

- A Lua script is one step, and so is a Postgres transaction; both stores share one clock, which
  stands still while a command, a script or a rebuild runs.
- A key is gone as soon as the time reaches its expiry.
- I/O that may fail is a parameter that says how it went (`fails`, `working`,
  `listed`, `outcome`, `trouble`, `readable`, `faults`).
- The hash behind `derive` is any function at all, passed as a parameter; fresh ids, seeds and
  tokens are parameters that have not been used before.
- Raw scores and the points scale are reals; board scores are integers.
- The score log holds what the table's checks and the session service let in: one of the five games,
  0 to 10000 points. `EndToEnd.ScoreCanBeRecorded` shows that the service writes nothing else.

## Where a promise has an exception

Each with the exact condition, an input that shows it, and whether Podium itself can come to it.

Exceptions that requests can bring about:

- `internal/games/reaction.go:126` says stopping cannot beat completing the game. A tap charged over
  half a second is worse than no tap. Exactly then: `Reaction.TapPays`; an example:
  `Reaction.SlowTapCosts`.
- `internal/leaderboard/leaderboard.go:156` says only boards that changed are announced. A cross-game
  board is announced unchanged exactly for a first score worth nothing of a player who is on that board
  already: `Submit.AnnouncedWhenChanged`; a run: `Delivery.AnnouncedUnchanged`.
- A report about a window that starts at the zero time (a date of 0001-01-01) is read from all of the
  history, because the zero time stands for all-time. Exactly then, unless every score is the window's
  own: `Reports.AskedIsWindow`; an example: `Reports.FirstDayShowsAll`.
- A flush that cannot read a board loses its mark exactly when the board was not marked again since the
  flush took its list: `Fanout.FailedReadLosesMark`; a run: `Fanout.MarkCanBeLost`.
- A board may be relied on until its window's start plus the expiry of its period, and not a moment
  longer: `Refinement.AdvanceRefines`; a run: `Delivery.KeptIsTight`.
- A report takes a window's live board whenever its key exists (`internal/reports/reports.go:122-137`),
  also when a score projected late has made the key anew. The answer is then the history's exactly if
  what was published since the key was last gone suffices: every score of the game equalled by one of
  those of the same player. For the cross-game board, gone together with the games' boards, it suffices if
  every player has one of those and every score worth anything is equalled: `Late.LiveIsRightExactly`; a
  run after which nothing is pending and a player is missing: `Late.LateSweepHides`. A cross-game board
  made anew while a game's board is still there counts only what is gained from then on: a player's entry
  is the sum of the player's game entries exactly if what they came to at that point is what has expired
  from them since: `Late.CrossGameBalance`; a run: `Late.CrossGameFallsShort`.
- The snapshot a new listener gets is read and handed over without a lock (`internal/realtime/hub.go:190-198`),
  and so may come after a fresher one. Once a flush is over, a channel awaits no other and no read failed,
  a listener's last snapshot is as fresh as the last mark exactly if it is not an opening snapshot read
  before that mark: `Fanout.SettledListenersAreFresh`; a run: `Fanout.OpeningCanBeStale`.
- A rebuild that breaks off between staging members and giving them an expiry, with no other before the
  window ends, leaves a key that nothing touches any more. What is staged for a window that has passed is
  still there exactly until its expiry, and so for ever exactly if it has none: `Recovery.StrandedStays`;
  a run: `Recovery.StagingCanStrand`, and by the code itself: `Recovery.StrandByRebuild`.

Exceptions the code has and Podium as shipped does not come to:

- `internal/games/wordscramble.go:82` says the player is never handed the answer. That holds for every
  hash exactly of lists without a word of two equal first letters: `WordScramble.NeverGivenAway` and
  `WordScramble.DoubledStartGivenAway`. The words of five letters and more in
  `internal/games/words.txt` have none.
- `Standing`, asked for fifty neighbours or more, falls back to a page of twenty, which may not hold the
  player: `Ranking.StandingShowsPlayer`, `Ranking.FiftyNeighboursMiss`. The API lets at most 25 through
  (`internal/httpapi/leaderboards.go:96`), and then the page always holds the player:
  `Ranking.ApiShowsPlayer`.
- A rebuild leaves a staging key behind exactly when there was one and its board is empty:
  `Rebuild.StagingLeftover`, `Recovery.ForeignStagingStays`. Only something foreign can put one there:
  while nobody but Podium writes to Redis, a rebuild that finishes leaves nothing staged for the boards it
  rebuilt, however many broke off before: `Recovery.FinishedLeavesNothingStaged`.

## Model

| member | source | states |
|---|---|---|
| `Calendar.IsoWeekInjective` | internal/leaderboard/keys.go:94-96 | Two days carry the same ISO year and week exactly when they lie in the week of the same Monday, across year ends too. |
| `Calendar.LeapDays` | internal/leaderboard/keys.go:63-84 | The calendar is Gregorian: leap days are every fourth year's but those of full centuries, of which every fourth has one. |
| `Calendar.FourthOfJanuary` | internal/leaderboard/keys.go:94-96 | The week that holds 4 January is week 1 of that year, whatever day that is. |
| `Calendar.NextWeek` | internal/leaderboard/keys.go:94-96 | The week after has the next number, or is the first of the next year. |
| `Windows.WindowIsSpan` | internal/leaderboard/keys.go:63-84 | The calendar arithmetic of a window comes to the day, the seven days from its Monday, or the whole month; two zero times for all-time. |
| `Windows.WindowsTile` | internal/leaderboard/keys.go:61-84 | A window contains its instant; an instant lies in a window exactly when it has the same window; the start alone tells windows apart. |
| `Windows.PreviousWindowAdjoins` | internal/reports/materialise.go:50-52 | The window of the nanosecond before a window starts ends exactly where that window starts. |
| `Windows.KeptThroughNextWindow` | internal/leaderboard/keys.go:38-54 | A key that is made as its window starts outlasts the window after it; for days and weeks the expiry is exactly two windows. |
| `Windows.TwoLongMonths` | internal/leaderboard/keys.go:43-54 | For months it cannot be less: July and August come to just that. |
| `Keys.BucketNamesWindow` | internal/leaderboard/keys.go:86-104 | Two instants get the same bucket string exactly when they get the same window. |
| `Keys.KeyNamesBoard` | internal/leaderboard/keys.go:128-134 | Two key strings are equal exactly when scope, period and window are. |
| `Keys.KnownKeys` | internal/leaderboard/keys_test.go:55-126 | The keys of an instant on 7 September 2026 are spelt as expected, week 37 included. |
| `Keys.StagingIsNoBoard` | internal/leaderboard/rebuild.go:125 | A staging key is never the key of a board. |
| `Keys.StagingInjective` | internal/leaderboard/rebuild.go:125 | Two staging keys are equal exactly when they are for the same key. |
| `Submit.RecordBest` | internal/leaderboard/lua/submit.lua:26-40 | The game's board takes the score exactly when it is the player's first or beats the old one, the cross-game board moves by exactly the difference, nothing else changes, and no expiry moves. |
| `Submit.ExpireOnce` | internal/leaderboard/lua/submit.lua:42-51 | A key gets an expiry only if it exists and has none; scores and other keys stay. |
| `Submit.Round` | internal/leaderboard/lua/submit.lua:21-63 | One period: both boards and both expiries as specified, and the reply gives the player's score and the count of higher ones, plus one, on each board as they are afterwards (`Submit.StandingTellsTrue` says what that is). |
| `Submit.Script` | internal/leaderboard/lua/submit.lua:17-65 | The whole script is four such rounds one after the other, with one reply each. |
| `Submit.RoundsAreIndependent` | internal/leaderboard/lua/submit.lua:21-63 | The rounds do not meet: each period's change can be judged against the database the script started from, and no key but the eight is touched. |
| `Submit.Submit` | internal/leaderboard/leaderboard.go:103-154 | Recording a score, at the given time or now, moves the eight boards as specified. The player is then on the game's board of every period and is told, for both boards, the points and rank of the player's row there, which is the place where those points first come in the listing; and for every period whether the best improved. Announcements are for the improved periods. |
| `Submit.StandingTellsTrue` | internal/leaderboard/lua/submit.lua:53-62 | What the script tells of a board is the player's row in the listing from the top, or a row with nothing for a player not on it: its rank is one more than the place where its points first come. |
| `Submit.PageShowsStanding` | internal/leaderboard/leaderboard.go:256-291 | A page of the board as it then is shows the player with just that rank and those points. |
| `Submit.LeaderIsFirst` | internal/leaderboard/lua/submit.lua:53-62 | A rank of one is told exactly to whom nobody beats. |
| `Submit.Announce` | internal/leaderboard/leaderboard.go:161-182 | Both scopes of each improved period are announced, in period order, and nothing else. |
| `Submit.NoticesInOrder` | internal/leaderboard/leaderboard.go:166-172 | They come in the order of the periods, the game's board before the cross-game one, none twice. |
| `Submit.AnnouncedWhenChanged` | internal/leaderboard/leaderboard.go:156-182 | A game's channel is announced exactly when that board's scores changed. A cross-game board's scores changed exactly when it is announced and the score is not a first one worth nothing of a player already on it. |
| `Aggregate.GameBoardGrows` | internal/leaderboard/lua/submit.lua:26-40 | The best-per-player aggregate takes one more event in exactly when it is the player's first or beats the best so far. |
| `Aggregate.GlobalBoardGrows` | internal/leaderboard/lua/submit.lua:26-40 | The sum-of-bests aggregate moves, for one more event, by exactly the change of that player's best in that game. |
| `Refinement.SubmitRefines` | internal/leaderboard/lua/submit.lua:1-9 | A window's boards that hold the aggregate of its events hold, after a submit, the aggregate with the new event; for any window, repeat or order. |
| `Refinement.SubmitTimely` | internal/leaderboard/lua/submit.lua:42-51 | Expiring once never gives a board's key an expiry before its window's start plus the period's, and an all-time key none. |
| `Refinement.AdvanceRefines` | internal/leaderboard/keys.go:43-59 | Time passing takes nothing from a window's boards before its start plus the expiry. |
| `Refinement.Conservation` | internal/leaderboard/lua/submit.lua:3-9 | A player is on the cross-game board exactly when on some game's board, with the sum of those entries, between 0 and 50000. |
| `Delivery.NextKeeps` | internal/projector/projector.go:88-125 | Scores recorded, publishes that succeed, fail or go unanswered, crashes before the mark, marks and time passing all keep the boards equal to the aggregate of the published events. |
| `Delivery.BoardsLieBetween` | internal/projector/projector.go:88-125 | In every run all kept boards hold the aggregate of one set of events between those marked projected and those recorded. |
| `Delivery.NothingPendingNothingMissing` | internal/projector/projector.go:94-125 | When nothing is pending the kept boards hold the aggregate of the whole log. |
| `Delivery.OnlyTheEventsMatter` | internal/projector/projector.go:88-94 | Two runs that published the same events show the same scores on every board both still keep, whatever the order, repeats and timing. |
| `Delivery.KeptIsTight` | internal/leaderboard/keys.go:43-59 | For every period but all-time and every window there is a run that loses a published score at the window's start plus the expiry. |
| `Delivery.AnnouncedUnchanged` | internal/leaderboard/leaderboard.go:156-182 | For every player there is a run whose last submit announces every period's cross-game board and changes none of them. |
| `Projector.Project` | internal/session/session.go:366-394 | Whatever becomes of publishing inline, it is steps of the delivery machine, keeps its invariant, and a success leaves the score marked. |
| `Projector.Sweep` | internal/projector/projector.go:94-125 | A sweep delivers the oldest pending scores of one batch in order up to the first failure, none if they cannot be listed; exactly those stop being pending; it reports their number and whether it failed. |
| `Projector.MarkingTheOldest` | internal/store/queries/sessions.sql:58-67 | Marking the oldest pending score takes exactly that one off the pending list. |
| `Projector.Run` | internal/projector/projector.go:64-86 | Any number of sweeps an interval apart, with any scores coming in between at any time, keep the delivery invariant whatever fails; without failures each takes a batch off the backlog, which is followed exactly. |
| `Projector.BacklogClears` | internal/projector/projector.go:94-125 | Failure-free sweeps clear a backlog exactly when sweeps times batch is at least its size. |
| `Projector.BacklogBounded` | internal/projector/projector.go:64-125 | While no more scores come in between sweeps than a batch, the backlog never exceeds a batch or what it was. |
| `History.BestPoints` | internal/store/queries/sessions.sql:69-74 | One row per game and player with points within the bounds, holding the best; the rows give the same boards as the events. |
| `History.Tally` | internal/leaderboard/rebuild.go:78-91 | The two maps filled from the rows are each game's board and the cross-game board of the rows. |
| `History.SameGlobal` | internal/leaderboard/rebuild.go:87-90 | The cross-game board is determined by the games' boards. |
| `History.BoundsAreWindow` | internal/leaderboard/rebuild.go:56-62 | The bounds of the current window pick out exactly the events of that window. |
| `Rebuild.ReplaceKey` | internal/leaderboard/rebuild.go:116-149 | The key holds exactly the given scores and a fresh expiry and nothing is staged any more, or for no scores the key is gone. If it fails on the way, the key is as it was or as it was to be, and what is staged is told by how many commands had taken effect. No other key changes. |
| `Rebuild.RebuildPeriod` | internal/leaderboard/rebuild.go:77-109 | Six keys of one period are replaced with the aggregates of its window, and the entries are counted; if it breaks off, none of them is torn. |
| `Rebuild.Rebuild` | internal/leaderboard/rebuild.go:48-74 | The boards of all current windows are replaced with the aggregates of the log, whatever was there; 24 keys, their entries counted; every other key but their staging keys stays. It succeeds exactly if neither the clock nor any history it reads nor any command fails; otherwise every board is the whole old one or the whole new one, nothing is reported, and it stopped at one of the faults, with that key as its commands had left it. |
| `Rebuild.RebuildMatches` | internal/leaderboard/rebuild.go:38-47 | After a rebuild every current and all-time board holds the aggregate of its window's events. |
| `Rebuild.RebuiltExpiry` | internal/leaderboard/rebuild.go:136-140 | A rebuilt key expires exactly its period's time after the rebuild, an all-time one never. |
| `Rebuild.EntriesAreRows` | internal/leaderboard/rebuild.go:48-109 | The entries reported are the number of rows on all the boards rebuilt. |
| `Rebuild.RebuildEqualsIncremental` | internal/leaderboard/rebuild.go:38-47 | That is what any run that published every recorded score shows. |
| `Rebuild.RebuildIdempotent` | internal/leaderboard/rebuild.go:48-74 | A second rebuild at once changes nothing at all. |
| `Rebuild.StagingLeftover` | internal/leaderboard/rebuild.go:116-128 | A staging key exists after a rebuild exactly when it did before and the board is empty. |
| `Rebuild.SweepingAfterRebuild` | internal/projector/projector.go:90-93 | Publishing any list of events the rebuild already took in, repeats and all, changes no score on the rebuilt boards. |
| `Recovery.RunsAfterRebuild` | internal/leaderboard/rebuild.go:38-47 | After a rebuild, through any run of time passing, scores recorded, published, swept again, marked or lost track of, the boards of a window still kept hold the aggregate of the log at the rebuild and what was published since; once all is published, of the whole log. |
| `Recovery.FinishedLeavesNothingStaged` | internal/leaderboard/rebuild.go:111-149 | Through any course of rebuilds that finish or break off, submits and expiry, a rebuild that finishes leaves no staging key for a board it rebuilt. |
| `Recovery.ForeignStagingStays` | internal/leaderboard/rebuild.go:117-123 | A foreign staging key of an empty board survives a rebuild. |
| `Recovery.StrandedStays` | internal/leaderboard/rebuild.go:135-143 | What is staged for a window that has passed stays, through any course of rebuilds that finish or break off, submits and time passing, unchanged exactly until its own expiry, and so for ever exactly if it has none. |
| `Recovery.StagingCanStrand` | internal/leaderboard/rebuild.go:135-143 | For every period but all-time and every score there is a course of one rebuild that breaks off which strands a key. |
| `Recovery.StrandByRebuild` | internal/leaderboard/rebuild.go:135-143 | One rebuild of one score, stopped between staging and expiring, leaves such a key without an expiry when its window has passed. |
| `Listing.AboveIsPosition` | internal/leaderboard/leaderboard.go:256-259 | Where a score first occurs in a descending listing is the number of members above it. |
| `Listing.SameScores` | internal/store/queries/reports.sql:16 | Two descending listings of one board show the same score at every position, however they order ties. |
| `Ranking.PageAt` | internal/leaderboard/leaderboard.go:225-293 | A page is the board's rows from the offset on, at most the page size, and the board's size; every row carries one more than the number of members scoring strictly higher, also when the page opens inside a tie. |
| `Ranking.PageHasRows` | internal/leaderboard/leaderboard.go:225-254 | A page has as many rows as asked for, from 1 to 100, and otherwise twenty, as far as the board goes, and they are the board's from the offset on. |
| `Ranking.TiesByName` | internal/leaderboard/leaderboard.go:240-243 | Equal points come in the order of the ids as printed, the lexicographically later first. |
| `Ranking.RankRows` | internal/leaderboard/leaderboard.go:279-291 | The running rank, started from one count, gives every row of the page its true competition rank. |
| `Ranking.PagesConcatenate` | internal/leaderboard/leaderboard.go:225-293 | Consecutive pages of one size are together the board's rows, none missing and none twice. |
| `Ranking.RowsNameEveryone` | internal/leaderboard/leaderboard.go:240-291 | The rows name every member exactly once, in descending order of points. |
| `Ranking.StandingOf` | internal/leaderboard/leaderboard.go:296-330 | A player's points and competition rank and the page around the player's position; unranked exactly when not on the board. |
| `Ranking.StandingShowsPlayer` | internal/leaderboard/leaderboard.go:324-329 | The page shows the player exactly when at most 49 neighbours are asked for or the player is among the first twenty. |
| `Ranking.ApiShowsPlayer` | internal/httpapi/leaderboards.go:96-102 | For every number of neighbours the API lets through the page holds the player and does not fall back to the default size. |
| `Ranking.FiftyNeighboursMiss` | internal/leaderboard/leaderboard.go:226-228 | On a board of twenty-one the last player, asking for fifty neighbours, is not on the page. |
| `Ranking.StandingShowsNeighbours` | internal/leaderboard/leaderboard.go:324-329 | With 1 to 49 neighbours the page starts that many rows before the player or at the top, and holds every row that far before and after. |
| `Reports.Service.TopPlayers` | internal/reports/reports.go:104-159 | Live when the key exists, else the stored snapshot unless the window starts at the zero time, else the history's answer; with the two ends of the window unless it starts at the zero time; limits outside 1 to 100 become 10. |
| `Reports.Service.FromSnapshot` | internal/reports/reports.go:178-225 | The stored rows cut to the limit, or nothing. |
| `Reports.BoardFromHistory` | internal/reports/reports.go:251-315 | The four aggregate queries give the aggregate of the events asked for, by game or across games: all for the zero start, else those from the start on and before the end. |
| `Reports.Leading` | internal/store/queries/reports.sql:1-41 | The first rows, up to the limit, of some descending listing of the scores. |
| `Reports.Decorate` | internal/reports/reports.go:319-349 | Running along descending rows gives each the rank that counts the members strictly above it. |
| `Reports.FromHistory` | internal/reports/reports.go:233-249 | The history's answer is the ranked top of the aggregate of the events asked for. |
| `Reports.Service.Materialise` | internal/reports/materialise.go:71-113 | A board is stored under its scope, period and window, with its top hundred rows ranked, exactly when somebody is on it and no query fails; nothing else changes. |
| `Reports.FrozenRows` | internal/reports/materialise.go:19-24 | As many rows are frozen as there are players on the board, up to a hundred. |
| `Reports.Service.MaterialiseClosedWindows` | internal/reports/materialise.go:32-67 | The last closed window of every period but all-time is stored for each of the six scopes somebody is on, every other snapshot stays, and both counts are right. The first of the eighteen boards that fails ends it: exactly those before it are done and counted. |
| `Reports.AskedIsWindow` | internal/reports/reports.go:251-315 | The history queries read exactly a window's events if and only if the window does not start at the zero time, or is all time, or every event is the window's own. |
| `Reports.FirstDayShowsAll` | internal/reports/reports.go:283-290 | The report about 1 January of year 1 reads a score of any other time, which is not of its window. |
| `Reports.TopRowsAgree` | internal/reports/reports.go:233-237 | Two ranked tops of one board agree row by row on rank and points, and on the players above the last row's points. |
| `Reports.ThreeAnswersAgree` | internal/reports/reports.go:98-159 | For a fully projected window still kept and frozen when none of its scores was still to come, the live, snapshot and history answers agree in that sense for every limit from 1 to 100. |
| `Late.GameBoardSince` | internal/leaderboard/lua/submit.lua:26-51 | In every run, kept or not, a game's board holds exactly the aggregate of what was published since its key was last gone. |
| `Late.WindowSince` | internal/leaderboard/lua/submit.lua:26-51 | All boards of a window hold the aggregate of what was published since all of them were last gone. |
| `Late.KeyLastsItsTime` | internal/leaderboard/lua/submit.lua:42-51 | A key is there, with the expiry it was made with, until its period's time from when it was made is over, however often it is written to meanwhile; an all-time key for ever. |
| `Late.KeyRollsOver` | internal/leaderboard/lua/submit.lua:42-51 | And then it is gone, so that a window does roll over. |
| `Late.LiveIsRightExactly` | internal/reports/reports.go:122-137 | The live answer is the aggregate of the window's whole history exactly if what was published since its keys were last gone suffices: each score equalled by one of the same player since, or, across games, each player published since and each score worth anything equalled. |
| `Late.CrossGameBalance` | internal/leaderboard/lua/submit.lua:3-9 | In every run a player's cross-game entry is the sum of the player's game entries, less what they came to when the cross-game key was last gone, plus what has expired from them since; so it is the sum exactly if those two are equal. |
| `Late.LateSweepHides` | internal/reports/reports.go:122-137 | For every period but all-time, window and game there is a run that ends with nothing pending, both live boards there, and a player with a score in the window on neither. |
| `Late.CrossGameFallsShort` | internal/leaderboard/lua/submit.lua:3-9 | There is a run that ends with nothing pending and a cross-game entry smaller than the player's entry on one game's board. |
| `Tokens.NextKeeps` | internal/store/queries/refresh_tokens.sql:1-34 | Every step keeps: one live token per family, none in an ended family, each claim of a distinct token with a distinct successor. |
| `Tokens.RotationIsSingleUse` | internal/auth/service.go:172-205 | In every run of sign-ins, refreshes, logouts and cleanups no token is claimed twice, no two claims make the same token, and a family has at most one token that could be claimed. |
| `Tokens.ClaimsAreRecorded` | internal/auth/service.go:188-204 | A committed claim adds exactly one claim, uses up the token presented and makes exactly one row, its live successor in the family; every other row stays. No other step adds a claim, and none but a sign-in a row. |
| `Tokens.EndedForEver` | internal/auth/service.go:207-237 | Once a recorded used token comes back, or a family is logged out, no token of that family is ever claimed again. |
| `Tokens.EndingTouchesOneFamily` | internal/store/queries/refresh_tokens.sql:19-23 | Reuse or logout revokes the rows of that family and changes nothing else about them; every other row stays as it is. |
| `Tokens.TokenLasts` | internal/auth/service.go:172-205 | In every run a token that was given out can be claimed at any time before it expires, unless it has been claimed or its own family ended in between. |
| `Tokens.ClaimedIsRemembered` | internal/auth/service.go:206-229 | In every run a claimed token stays known as used until it would have expired, so that it is recognised when it comes back. |
| `Tokens.TokenIsOfSignIn` | internal/auth/service.go:183-200 | In every run a token's user is the one whose sign-in began its family. |
| `Tokens.FamilyBeginsOnce` | internal/auth/service.go:147-151 | And no other sign-in begins that family. |
| `Tokens.CleanupTakesTheExpired` | internal/store/queries/refresh_tokens.sql:32-34 | Clearing up takes exactly the rows past their expiry and leaves the others as they are. |
| `Tokens.Service.SignIn` | internal/auth/service.go:147-151 | A first token of a new family is created, good for the refresh time. |
| `Tokens.Service.Refresh` | internal/auth/service.go:177-205 | Succeeds exactly on an unused, unrevoked, unexpired token when neither the claim nor a write fails, and is then the claim step; each error in exactly its case, a failed lookup included; a failure changes nothing. |
| `Tokens.Service.RejectClaim` | internal/auth/service.go:210-237 | A failed lookup or revocation is a failure and changes nothing; otherwise only a used token has an effect: the rows of its family are revoked, all others stay as they are, and the request fails. Each error in exactly its case. |
| `Tokens.Service.Logout` | internal/auth/service.go:240-255 | Revokes the rows of a known token's family and leaves all others as they are; an unknown one changes nothing; fails exactly if the lookup does, or the revocation of a known one. |
| `Tokens.Service.DeleteExpired` | internal/store/queries/refresh_tokens.sql:32-34 | Removes exactly the rows past their expiry, changes no other, and counts them. |
| `RateLimit.Limiter.Allow` | internal/ratelimit/lua/fixed_window.lua:7-27 | The counter goes up by one or starts anew with an expiry; permitted exactly when within the limit; remaining and time left are those of the counter. |
| `RateLimit.CounterAlwaysExpires` | internal/ratelimit/lua/fixed_window.lua:13-21 | Whatever it finds, a request leaves a counter that expires within a window. |
| `RateLimit.WaitingHelps` | internal/httpapi/auth.go:295-297 | A refused sole caller who waits the advertised seconds is let through, exactly if the limit is at least one. |
| `RateLimit.WaitingLessDoesNot` | internal/httpapi/auth.go:295-299 | The seconds told are the least whole number that is more than the time left, and whoever asks before that time is over is refused again. |
| `RateLimit.LifetimeBound` | internal/ratelimit/lua/fixed_window.lua:11-27 | One counter lets at most limit requests through in its life. |
| `RateLimit.WindowBound` | internal/ratelimit/ratelimit.go:20-22 | Any interval one window long lets at most twice the limit through. |
| `RateLimit.WindowBoundIsTight` | internal/ratelimit/ratelimit.go:20-22 | For every limit and window some run reaches twice the limit. |
| `Games.PointsFollowRaw` | internal/games/games.go:93-113 | Points stay in 0 to 10000, the worst and best raw scores earn the ends, and a better raw score never earns less, in either direction. |
| `Games.PointsAreLinear` | internal/games/games.go:93-113 | In between, points are the share of ten thousand that the raw score has come of the way from worst to best, cut off to whole points. |
| `Games.DeriveIntn` | internal/games/rng.go:39-44 | A derived value lies in [0, n), and is 0 for no room. |
| `Games.DeriveRange` | internal/games/rng.go:47-52 | A derived value lies in [low, high], and is low for an empty range. |
| `Games.EveryValueIsDrawn` | internal/games/rng.go:47-52 | Every value of the range is drawn for the hash that gives its place there. |
| `NumberGuess.Start` | internal/games/numberguess.go:47-58 | The loop fills in the three derived secrets and leaves the whole range open. |
| `NumberGuess.AnySecretsComeUp` | internal/games/numberguess.go:47-51 | Every three numbers from 1 to 100 can come up, each from the hash of its round. |
| `NumberGuess.MoveIsTaken` | internal/games/numberguess.go:81-100 | A guess is taken exactly if the game goes on and it is a number from 1 to 100; each error in exactly its case. |
| `NumberGuess.RoundsEnd` | internal/games/numberguess.go:102-139 | A round ends exactly by the right guess or the seventh, and a fresh one begins; the hint says which or on which side the secret lies; the view counts rounds and guesses down rightly; a wrong guess leaves the range. |
| `NumberGuess.MoveKeeps` | internal/games/numberguess.go:81-147 | An accepted guess keeps the secret within the range shown, raw within 3 to 21 and never rising, points never falling, counts one guess of at most 21, and tells done and correct rightly. |
| `NumberGuess.HalvingSolvesRound` | internal/games/numberguess.go:102-124 | From a range that fits the guesses left, guessing the middle solves the round within them. |
| `NumberGuess.SevenGuessesSuffice` | internal/games/numberguess.go:157 | Halving solves every fresh round within seven guesses, whatever the secret. |
| `NumberGuess.SomeSecretEscapes` | internal/games/numberguess.go:102-124 | From a range of at least two to the n numbers some secret escapes n more guesses of any strategy driven by the hints. |
| `NumberGuess.SixGuessesAreNotEnough` | internal/games/numberguess.go:157 | No strategy driven by the hints finds every secret of a fresh round within six guesses. |
| `NumberGuess.ViewsTellOnlyAnswers` | internal/games/numberguess.go:62-79 | Two games whose secrets answer the guesses alike show identical views after any list of moves. |
| `Reaction.ComputeRaw` | internal/games/reaction.go:128-138 | The loop computes the mean over five rounds, rounds not played charged 500. |
| `Reaction.MoveIsTaken` | internal/games/reaction.go:76-124 | A move is taken exactly if it is what the view says comes next; each error in exactly its case. |
| `Reaction.DelayIsDrawn` | internal/games/reaction.go:92-95 | Every delay from 1.2 to 3 seconds can come up in any round, from the hash of that round. |
| `Reaction.TapIsMeasured` | internal/games/reaction.go:101-119 | A tap is right exactly 80 milliseconds after the signal or later, and is then recorded in whole milliseconds; one before is a foul and leaves mean and points as they are. |
| `Reaction.MoveKeeps` | internal/games/reaction.go:76-124 | Accepted moves alternate arm and tap, the game is done at exactly the tenth, and an armed signal is due 1.2 to 3 seconds later and held until then. |
| `Reaction.TapPays` | internal/games/reaction.go:126-138 | A tap leaves the mean no worse exactly when it is charged at most half a second, and then the points do not fall. |
| `Reaction.SlowTapCosts` | internal/games/reaction.go:126-138 | A tap of 820 milliseconds after one of 180 takes the points from 2000 to 0. |
| `Reaction.ViewsHideTheSignal` | internal/games/reaction.go:32-74 | Games with equal actions, whose taps come equally long after the signal, show identical views, whatever their seeds and signal times. |
| `Memory.MakeSequence` | internal/games/memory.go:45-51 | The loop fills in the derived symbols of a level. |
| `Memory.SequenceExtends` | internal/games/memory.go:43-51 | Each level's sequence is a prefix of every later one, of symbols 1 to 4. |
| `Memory.EverySequenceComesUp` | internal/games/memory.go:43-51 | Every sequence of the four symbols can come up, each symbol from the hash of its place. |
| `Memory.MoveIsTaken` | internal/games/memory.go:66-78 | A move is taken exactly if the run goes on and it has symbols in it; each error in exactly its case. |
| `Memory.MoveKeeps` | internal/games/memory.go:66-94 | An accepted move leaves fewer to make, twenty at most; a level is completed exactly by repeating its sequence; the run ends exactly by a mistake or with the twentieth level; points never fall. |
| `MathSprint.ProblemIsRight` | internal/games/mathsprint.go:43-62 | Each problem's answer is the one number that answers its question: what is left of a sum without one number is the other, a difference and what was taken away make up the first, a product is one number added up as often as the other says. Operands lie in the ranges of their kind, and a difference is at least 1. |
| `MathSprint.EveryProblemComesUp` | internal/games/mathsprint.go:43-62 | Every such problem can come up at every index, from the three hashes of the index. |
| `MathSprint.MoveIsTaken` | internal/games/mathsprint.go:80-95 | A move is taken exactly if it comes in time and has an answer; each error in exactly its case. |
| `MathSprint.MoveKeeps` | internal/games/mathsprint.go:80-106 | An accepted answer scores exactly when it answers what the problem at the index asks; the next problem comes, and points never fall. |
| `MathSprint.ScoreMatchesProblems` | internal/games/mathsprint.go:80-106 | In every run index is correct plus wrong, and correct is the number of answers within the half minute that answer what the seeded problems ask, in order. |
| `WordScramble.ShuffleLetters` | internal/games/wordscramble.go:85-91 | The loop over the letters in place is the shuffle from the last position down. |
| `WordScramble.ScrambleWord` | internal/games/wordscramble.go:84-97 | The word shuffled, with the first two letters swapped if that gave the word back. |
| `WordScramble.EveryOrderComesUp` | internal/games/wordscramble.go:85-91 | Every order of a word's letters comes out of the shuffle for some hash. |
| `WordScramble.ScrambleHidesWord` | internal/games/wordscramble.go:82-97 | The scramble is a permutation of the word, and equals a word of two letters or more exactly when the shuffle does and its first two letters are the same. |
| `WordScramble.NeverGivenAway` | internal/games/wordscramble.go:82-97 | From a list in which no word begins with the same letter twice no word is ever shown as it is, for any hash and seed. |
| `WordScramble.DoubledStartGivenAway` | internal/games/wordscramble.go:82-97 | From any other list some hash shows a word as it is. |
| `WordScramble.AnagramsSortAlike` | internal/games/wordscramble.go:99-103 | Sorted letters are equal exactly when the letters are equal as multisets. |
| `WordScramble.MoveIsTaken` | internal/games/wordscramble.go:126-146 | A move is taken exactly if it comes in time and is a skip or an answer; each error in exactly its case. |
| `WordScramble.ScoreMatchesWords` | internal/games/wordscramble.go:126-165 | In every run the seeded words are gone through in order, each until it is skipped or answered with a listed word of its letters within the minute, and the score is the number answered. |
| `WordScramble.MoveKeeps` | internal/games/wordscramble.go:126-165 | In time, an answer scores exactly when it is a listed word and an anagram of the target; index is solved plus skipped; points never fall. |
| `WordScramble.ScrambleIsSolvable` | internal/games/wordscramble.go:113-162 | What is shown can be solved in time: the word it was made of is accepted. |
| `Engine.StartIsNothing` | internal/games/games.go:182-190 | Every game starts valid, not done and worth no points. |
| `Engine.MoveKeeps` | internal/games/games.go:192-208 | An accepted move keeps the game valid, and reports done exactly when the state is. |
| `Engine.MoveIsTaken` | internal/games/games.go:192-208 | A game takes exactly the moves meant for it that come in time and in turn. |
| `Engine.WhatIsRight` | internal/games/games.go:192-208 | What a taken move has to be to be called right, game by game; where right moves are counted, each counts one. |
| `Engine.FullMarks` | internal/games/mathsprint.go:9-12 | The raw scores that earn nothing and everything, game by game (memory.go:13, wordscramble.go:16, numberguess.go:164-166, reaction.go:155-157). |
| `Engine.PlayingOnNeverCosts` | internal/games/games.go:87-104 | Playing on never costs points, except by a reaction tap charged over half a second. |
| `Engine.PointsRange` | internal/games/games.go:93-104 | Every raw score of every game earns 0 to 10000 points. |
| `Session.NextKeeps` | internal/session/session.go:147-439 | Starting, moving, finishing, abandoning and failing all keep the invariant of the two tables. |
| `Session.EndedIsFinal` | internal/store/queries/sessions.sql:22-36 | A finished or abandoned session, and its score, never change again. |
| `Session.RunsKeepScores` | internal/session/session.go:147-439 | In every run a session is finished exactly when it has a score, an active one is not done, a user has at most one active session of a game, and the stored points are what replaying the accepted moves from the seed earns. |
| `Session.ScoresComeFromFinishing` | internal/session/session.go:397-439 | A score comes about only as an active session of the requesting player's own ends by a move or a finish, with what it had come to and that time. |
| `Session.OthersLeaveSessionsAlone` | internal/store/queries/sessions.sql:30-36 | In every run in which a user makes no request, and no session is closed for having been left alone, all the user's sessions, scores and moves stay as they are. |
| `Session.QuittingNeverPays` | internal/games/reaction.go:126-138 | For any list of accepted moves of any game, what replaying a part of it from the start earns is at most what the whole earns, as long as every reaction tap after that part is charged at most half a second. |
| `Session.Service.Open` | internal/session/session.go:147-202 | For a known game when nothing fails: a fresh session from the start state, the user's own active sessions of that game abandoned, every other session as it was; otherwise nothing changes. |
| `Session.Service.Play` | internal/session/session.go:242-307 | Applies a move to an active session of the user's own if the engine takes it, and settles it if that ends the game; each error in exactly its case. |
| `Session.Service.Settle` | internal/session/session.go:397-439 | Marks an active session finished and writes its score. |
| `Session.Service.Finish` | internal/session/session.go:311-364 | Ends an active session with its score; asked again, answers with the score already there; an abandoned one is refused. |
| `Session.Service.AbandonStaleSessions` | internal/store/queries/sessions.sql:76-81 | Closes exactly the active sessions started before the cutoff, without a score, leaves every other as it is, and counts them. |
| `EndToEnd.NextKeeps` | internal/session/session.go:366-439 | Requests, deliveries and time passing keep both machines' invariants and the log equal, entry by entry and once each, to the sessions' scores. |
| `EndToEnd.ScoreCanBeRecorded` | internal/session/session.go:416-422 | Every score a session comes to is one the log takes: of one of the five games, with 0 to 10000 points. |
| `EndToEnd.BoardShowsBestReplay` | internal/session/session.go:366-394 | In every run, once nothing is pending, a game's board of a window still kept shows exactly the players with a finished session in it, each with the best points that replaying such a session's accepted moves from its seed earns. |
| `EndToEnd.GlobalShowsSum` | internal/leaderboard/lua/submit.lua:3-9 | At every point of every run, with scores pending or not, the cross-game board of a window still kept shows exactly the players on some game's board, with the sum of those entries, at most 50000. |
| `Channels.ParseIsInverse` | internal/realtime/channel.go:31-58 | A string parses to a channel exactly when it is that channel's name and its board exists. |
| `Fanout.NextKeeps` | internal/realtime/hub.go:43-261 | Every step of the hub, also in the middle of a flush, keeps buffers within capacity, drops at one, no empty channel set, and each broadcast's listeners split into served, dropped and due. |
| `Fanout.RunsStaySound` | internal/realtime/hub.go:43-261 | So in every run; and delivered, dropped and due add up to the broadcast set. |
| `Fanout.SendReachesOrDrops` | internal/realtime/hub.go:43-51 | A send puts the frame at the end of the buffer or, the buffer full, drops the subscriber; nobody else is touched. |
| `Fanout.DroppedOnlyWhenFull` | internal/realtime/hub.go:37-51 | Nobody is dropped who has room. |
| `Fanout.GotWasDelivered` | internal/realtime/hub.go:236-253 | Whoever a broadcast counts as delivered had its frame put in the buffer by a step of the run. |
| `Fanout.MarkStaysUntilServed` | internal/realtime/hub.go:138-147 | A marked channel stays on a list until a flush comes to it, whatever else happens. |
| `Fanout.ReadIsFresh` | internal/realtime/hub.go:170-186 | The read a flush then makes is later than the mark, and than every other mark before it. |
| `Fanout.MarkReachesListeners` | internal/realtime/hub.go:170-261 | Whoever listens when the frame is handed out has, when that is over, had a frame read after the mark put in its buffer, or been dropped. |
| `Fanout.FailedReadLosesMark` | internal/realtime/hub.go:177-183 | After a read that fails the channel still awaits a flush exactly when it was marked again since the flush took its list. |
| `Fanout.MarkCanBeLost` | internal/realtime/hub.go:177-183 | One mark and one failing read leave a listener with nothing sent and nothing to come. |
| `Fanout.SettledListenersAreFresh` | internal/realtime/hub.go:133-198 | In every run, once the flush is over and a marked channel awaits no other, a listener throughout who was not dropped, no read having failed, has been given a snapshot of it; the last was read after the mark exactly if it is not an opening snapshot read before it. |
| `Fanout.OpeningCanBeStale` | internal/realtime/hub.go:188-198 | A nine-step run: an opening snapshot read before a mark is handed over after the flush's, and is the last with nothing to come. |
| `Hubs.Hub.Subscribe` | internal/realtime/hub.go:91-101 | Exactly that listener joins exactly that channel. |
| `Hubs.Hub.Unsubscribe` | internal/realtime/hub.go:104-114 | Exactly that listener leaves exactly that channel, and an empty channel is forgotten. |
| `Hubs.Hub.Remove` | internal/realtime/hub.go:117-127 | That listener leaves every channel, nobody else any, and emptied channels are forgotten. |
| `Hubs.Hub.TakeDirty` | internal/realtime/hub.go:202-213 | Every marked channel is listed once, no other is, and no mark is left. |
| `Hubs.Hub.Deliver` | internal/realtime/hub.go:43-51 | Never waits: the frame is kept, or the subscriber's one drop is used. |
| `Hubs.Hub.Publish` | internal/realtime/hub.go:190-198 | One connection is sent the board as it is, one step of the hub's machine; a failed read sends nothing. |
| `Hubs.Hub.Broadcast` | internal/realtime/hub.go:236-261 | Every listener of the channel is offered the frame and nobody else is; delivered and dropped add up to the listeners, and dropped counts those whose buffers were full; in the machine it gathers, sends to each and ends. |
| `Hubs.Hub.Flush` | internal/realtime/hub.go:170-186 | No mark is left; every subscriber has been offered, in the order of the list, a snapshot of each marked channel it listens to that could be read; and the flush is a path of the hub's machine. |
| `Hubs.FlushSendsOneFrameEach` | internal/realtime/hub.go:133-147 | That is exactly one frame per such channel however often it was marked, and no other; the buffer takes them all or the subscriber is dropped. |
| `Hubs.OfferedInOrder` | internal/realtime/hub.go:37-51 | Frames offered in turn are buffered in order from the first on; one is missed only by a subscriber that is full and dropped. |
| `Connections.Connection.HandleSubscribe` | internal/realtime/ws.go:182-214 | The connection's list, the hub's index and the frames sent are those the message asks for: for each name it looks at, in order, the board of a channel asked for anew, if it can be read, or a rejection; then the list, or that it is full. List and index agree, the cap holds, and no other connection is affected. |
| `Connections.Connection.HandleUnsubscribe` | internal/realtime/ws.go:216-227 | The named channels are given up in list and index alike, and the rest confirmed. |
| `Connections.Connection.Close` | internal/realtime/ws.go:96-100 | A closed connection is on no channel, and no other connection is affected. |
| `Connections.AskingByName` | internal/realtime/ws.go:182-211 | Nothing is lost, the cap holds, only asked-for names of real boards are added, and all of them unless the cap is reached. |
| `Connections.NewBoardsAreShown` | internal/realtime/ws.go:204-212 | Every board that is new on the list and can be read is shown exactly once, as of now, before the message is confirmed or refused; no board is shown besides. |
| `Connections.OthersAreRejected` | internal/realtime/ws.go:189-199 | Each name looked at that is no channel's is rejected once, and the message itself exactly if it is not looked at to its end, which is where the list is full. |
| `Connections.LastReply` | internal/realtime/ws.go:189-214 | The last thing said is the list as it ended up, or that it is full, and then it is. |
| `Connections.WithoutMeans` | internal/realtime/ws.go:216-224 | Giving up a list of names leaves exactly the channels not named. |
| `Connections.OthersAgreeStill` | internal/realtime/ws.go:182-227 | What one connection does leaves the agreement of every other connection's list with the index as it was. |

## Left out

- HTTP routing, request validation, error envelopes, health checks, metrics, logging and configuration.
- JWT, Argon2, SHA-256 and the randomness of seeds, tokens and tickets: `derive` is any function, fresh values are parameters.
- Passwords, usernames and e-mail: registration and login are `Tokens.Service.SignIn`, a first token of a new family.
- The Redis and Postgres clients, timeouts, pools, Pub/Sub transport and WebSocket pumps, other than as steps that may fail.
- Interleavings of transactions under read committed, and a submit or a clock tick in the middle of a rebuild.
- Past windows in a rebuild: the code rebuilds current windows and all-time only, and so does the model.
- JSON encoding: game states, snapshots and frames are stored and sent as values. A frame carries its channel and the time of the read, not the rows.
- Floating-point rounding in raw scores, in the points scale and in sorted set scores.
- Reports.Service.TopPlayers: gives ids without usernames, as pages and standings do too, and stores that cannot be read are left out.
- The script's reply as a flat list of twenty numbers and the checks on its shape: it is four records.
- Submit.Submit: is not given an empty game name, which the registry has not got; the game and cross-game keys would then be the same.
- Reports.Leading: leaves the order of tied players open, where SQL takes the earlier first score; it answers with any descending listing, and what is proved holds for each.
- The number of players in a report, which counts the board on the live path and the rows on the others: only entries are compared.
- The text of a math question: a problem is its operator and its two numbers.
- Loading the word list and bringing an answer to lower case: `WordScramble` starts from trimmed lower-case words.
- Holding back a response after an armed round: the instant is part of the outcome, waiting for it is not modelled.
- Subscribers are values in a table under their ids, so that two connections cannot share a buffer is built in rather than proved.
- Hubs.Hub.Flush: runs without anything in between; what may come in between is in `Fanout`, of whose machine it is a path and where each lock and each send is a step of its own.
- Projector.Run: is followed for any number of sweeps, where the code goes on until it is cancelled; a score that comes in while a sweep is under way is one of those that come after it.
