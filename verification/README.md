# Verified models of the socket examples and the concurrent sort

Six pieces of this repository carry their own logic instead of forwarding to a library. This project
models them in Dafny and proves what they are for. `dafny verify dfyconfig.toml` checks all of it.

1. **Concurrent shearsort** (`CXXTest/concurrent_sort_test/main.cpp`). One thread per row or column
   bubble-sorts its line in place, row and column phases alternate, and a counter with two condition
   variables keeps the phases apart. `Bubble` has the in-place loops on a two-dimensional array,
   `Shearsort` the sequential phases and the halving of dirty rows, `SnakeOrder` the sorting theorem,
   `SizesThatSort` its exact range, `Barrier` the threads as a step relation in which every
   compare-and-swap is a step of its own, and `BarrierProgress` when the threads get to the end.
2. **optparse** (`SocketExams_vs17/uWebSocketsServer/helpers/optparse.h`). `Optparse` has one call of
   the parser, recursion and rotation included, as a class on an array; `OptparseRun` the calls until
   -1, on every argument vector, against a reference parser that never permutes; `OptparseSyntax` what arguments and letters mean, character by character;
   `OptparseLong` the compiled option string.
3. **uSockets** (`SocketExams/uSockets/src/context.c`, `socket.c`, `loop.c`). `USocketLists` has the
   doubly linked lists, `USocketLoop` linking, closing and freeing on the whole loop, `USocketEvents`
   what callbacks may do, `USocketSweep` the timer sweep, `USocketDispatch` ready polls and whole
   runs, `USocketTimers` timeouts and `USocketWrites` write interest over whole runs, `USocketPolls` who
   is closed and who polls for what, and `USockets` the pointer-following code as a class.
4. **asio's streambuf** (`SocketExams/3rdLib/asio/asio/basic_streambuf.hpp`). `Streambuf` has the array
   with its four offsets, as functions and as a class, and the bounded queue it has to be.
5. **RJSemaphore** (`SocketExams/RJCommon/RJSemaphore.cpp`). `Semaphore` has the steps under the mutex,
   the books they keep, and the object with its release loops.
6. **Synchronous calls** (`SocketExams/libuvClient_test/MyClient.cpp` with
   `SocketExams/LibuvServer_test/MyServer.cpp`). `Frame` has the 40-byte header and its two decoders,
   `SyncRpc` the interleavings of calls and arriving messages, on top of `Semaphore` and `Frame`, and
   `SyncCalls` the life of a call.

Code that updates things in place is modelled by methods that are proved equal to functions of the
state; the theorems are about those functions, over every input, run or interleaving.

## What turned out to be false

Each of these is stated as an equivalence, so that it also says when the code does what it should.

- The sort leaves every n x n input in snake order exactly when n is a power of two
  (`SizesThatSort.SortsExactlyPowersOfTwo`). For other sizes the number of phases is too small, and
  `OtherSizesFail` gives an unsorted input for each.
- The threads of the sort do not always get to the end. A run can, exactly as long as no release has
  found a worker that was not yet in its wait (`BarrierProgress.FinishesExactly`); without spurious
  wakeups main must, besides, not have missed the last notification (`FinishesQuietlyExactly`). Every
  size has runs of both kinds (`ReleaseCanMiss`, `MainCanMiss`).
- After an undeclared letter behind the first place of its cluster, optparse keeps a stale cursor: it
  skips letters of the next cluster, or reads past its end (`OptparseRun.NextCallInsideExactly`,
  `StaleCursorSkipsLetters`, and from the initial state `RunsPastTheEnd`, `LosesALetter`). The calls
  read what the reference parser reads exactly when every option argument is begun with cursor 0
  (`DrainMatchesParse`, `AlignedRunsExactly`).
- The compiled option string gives the right types exactly when no short name is ':'
  (`OptparseLong.LookupExactly`).
- A socket linked during a sweep is visited by that sweep if the turn of its context is still to come
  (`USocketSweep.LinkedDuringSweep`, with a run in `USocketDispatch.LinkedMeanwhileVisited`); within one
  context none is.
- `us_socket_timeout` gives the rounded number of sweeps exactly up to 262141 seconds
  (`USocketSweep.SweepsForTimeout`).
- When `prepare` or `overflow` throws, the streambuf has already moved its bytes, and the readable
  bytes survive exactly when they read the same shifted by what had been consumed
  (`Streambuf.ThrowKeepsContentsExactly`).
- `commit` and `consume` move the right number of bytes exactly when it fits an `int`
  (`Streambuf.CommitExactly`, `ConsumeExactly`).
- A release that comes between a timeout and the return of the thread that timed out can signal when
  nobody is blocked, and a thread can then stay blocked while the counter is positive
  (`Semaphore.WakeupCanBeLost`). The books stay even exactly as long as no release signals to nobody
  (`EvenExactly`), and nobody is blocked in vain exactly as long as no step takes the counter from -1 to
  0 past a blocked thread (`NoneForgottenExactly`).
- The server reads request numbers below 10^9, the client only those below 10^8
  (`Frame.ServerReadsExactly`, `ClientReadsExactly`).

## Reading the model

- The sort's `log(N) / log(2) + 1` is the exact `floor(log2 N) + 1`. A wait on `g_cv` returns only
  after a `notify_all`; main's own wait may also return by itself, since its loop tests again. Between
  its failed test and its wait main holds the lock, but workers count and notify without it.
- `Good` in `OptparseRun.DrainMatchesParse` says that the cursor stays aligned; `DrainFollows` has no such
  condition.
- uSockets' sockets are numbered in the order they are linked; a pointer is a number, a context or
  null. A callback is a list of calls it makes, with the callbacks that those lead to inside; the loop
  keeps a ghost log of visits, `on_close` calls and frees.
- A semaphore's signal wakes one blocked thread, if there is one, and nothing else but a timeout does.
  Each turn of a release loop is a step of its own, which allows more interleavings than the mutex does.
- The command that `SyncSend` returns is read as a C string.
- Request numbers are unique: `GetNextRequestId` counts up under a lock, and wrap-around of `int` is
  not modelled. The bytes of a new buffer are arbitrary.

## Model

| member | source | states |
|---|---|---|
| Bubble.SortSorts | CXXTest/concurrent_sort_test/main.cpp:90-110 | the nested bubble loops leave a line sorted in the asked direction, with as many values on each side of every threshold as before |
| Bubble.SortPermutes | CXXTest/concurrent_sort_test/main.cpp:90-110 | the result is a permutation of the line |
| Bubble.SortRow | CXXTest/concurrent_sort_test/main.cpp:90-110 | worker `id` sorts row `id` of the shared array in place: afterwards an even row rises, an odd row falls, the row is a permutation of itself, and no other row changes |
| Bubble.SortColumn | CXXTest/concurrent_sort_test/main.cpp:116-125 | worker `id` sorts column `id` in place: it rises, is a permutation of itself, and no other column changes |
| Bubble.CompareSwapRow | CXXTest/concurrent_sort_test/main.cpp:94-107 | on an even row the smaller of two neighbours comes first, on an odd row the larger, and nothing else changes |
| Bubble.CompareSwapColumn | CXXTest/concurrent_sort_test/main.cpp:120-123 | the smaller of two neighbours comes first, and nothing else changes |
| Shearsort.NeighboursCancel | CXXTest/concurrent_sort_test/main.cpp:94-107 | neighbouring rows sorted in opposite directions cannot favour one column over another twice |
| Shearsort.SpreadHalves | CXXTest/concurrent_sort_test/main.cpp:94-107 | so two columns differ by at most half the rows that are mixed |
| Shearsort.ColPhaseHalves | CXXTest/concurrent_sort_test/main.cpp:116-125 | a column phase after a row phase halves the band of mixed rows |
| Shearsort.DirtyRowsHalve | CXXTest/concurrent_sort_test/main.cpp:87-126 | for every n, threshold and p >= 1: after p row and column phases the rows with values on both sides of the threshold form one band of at most ceil(n / 2^p) rows |
| SnakeOrder.RunPermutes | CXXTest/concurrent_sort_test/main.cpp:84-126 | after any number of phases the matrix is a permutation of the input |
| SnakeOrder.PhasesAtPowerOfTwo | CXXTest/concurrent_sort_test/main.cpp:152 | for n = 2^k the program runs 2k + 1 phases |
| SnakeOrder.PhasesExactly | CXXTest/concurrent_sort_test/main.cpp:152 | for every size the number of phases is the p with 2^(p - 1) <= n * n < 2^p |
| SnakeOrder.PowerOfTwoSorts | CXXTest/concurrent_sort_test/main.cpp:84-152 | for every n = 2^k and every matrix the phases the program runs leave a permutation in which even rows rise, odd rows fall and no value exceeds one of a later row |
| SizesThatSort.TooFewPhases | CXXTest/concurrent_sort_test/main.cpp:152 | for other sizes it stops after p full pairs with 2^p < n |
| SizesThatSort.OtherSizesFail | CXXTest/concurrent_sort_test/main.cpp:84-152 | every other size has an input that is left unsorted |
| SizesThatSort.SortsExactlyPowersOfTwo | CXXTest/concurrent_sort_test/main.cpp:84-152 | every n x n input is sorted if and only if n is a power of two |
| Barrier.NextKeepsInv | CXXTest/concurrent_sort_test/main.cpp:84-185 | every step of every thread keeps the counting invariant and every line on its way to the sequential result |
| Barrier.NobodyRunsAhead | CXXTest/concurrent_sort_test/main.cpp:128-137 | in every run no worker is in phase p + 1 before all have finished phase p |
| Barrier.BarrierHolds | CXXTest/concurrent_sort_test/main.cpp:167-182 | in every run, when main passes its wait for phase i, every worker has finished exactly i + 1 phases, none sorts, and the matrix printed is that of the sequential phases |
| Barrier.FinalMatrix | CXXTest/concurrent_sort_test/main.cpp:167-191 | when main joins, the matrix is that of all phases run one after another |
| Barrier.ConcurrentSortSorts | CXXTest/concurrent_sort_test/main.cpp:84-191 | every interleaving on a 2^k x 2^k matrix that gets to joining leaves a permutation in which even rows rise, odd rows fall and no value exceeds one of a later row |
| BarrierProgress.BehindExactly | CXXTest/concurrent_sort_test/main.cpp:128-184 | in every run a worker is left waiting for a release that has been sent exactly when some release found a worker not yet in its wait |
| BarrierProgress.FinishesExactly | CXXTest/concurrent_sort_test/main.cpp:128-191 | a run can still get to the end of all threads if and only if no release so far found a worker not yet in its wait |
| BarrierProgress.FinishesQuietlyExactly | CXXTest/concurrent_sort_test/main.cpp:128-191 | without spurious wakeups it can if and only if, besides, main is not waiting for notifications that have all been sent |
| BarrierProgress.ReleaseCanMiss | CXXTest/concurrent_sort_test/main.cpp:131-184 | every size and matrix has a run whose release misses the workers and which cannot get to the end |
| BarrierProgress.MainCanMiss | CXXTest/concurrent_sort_test/main.cpp:128-174 | every size and matrix has a run in which main misses the last notification between its test and its wait, and only a spurious wakeup helps |
| Optparse.FindArgType | SocketExams_vs17/uWebSocketsServer/helpers/optparse.h:184-196 | the scanning loop computes the argument type |
| Optparse.ArgTypeMeaning | SocketExams_vs17/uWebSocketsServer/helpers/optparse.h:184-196 | the type is that behind the first occurrence of the letter, and -1 means no occurrence or ':' |
| Optparse.Parser.constructor | SocketExams_vs17/uWebSocketsServer/helpers/optparse.h:144-154 | the initial state |
| Optparse.Parser.MoveBack | SocketExams_vs17/uWebSocketsServer/helpers/optparse.h:174-182 | the loop rotates one argument behind the consumed ones, in place |
| Optparse.Parser.ReadLetter | SocketExams_vs17/uWebSocketsServer/helpers/optparse.h:224-266 | one letter: its type, its argument, the cursor, the errors |
| Optparse.Parser.NextHere | SocketExams_vs17/uWebSocketsServer/helpers/optparse.h:208-266 | a call at an option, at "--", at the end, or at a non-option without permutation |
| Optparse.Parser.Next | SocketExams_vs17/uWebSocketsServer/helpers/optparse.h:198-268 | the recursive call on the array answers and changes the state as the function the theorems are about |
| Optparse.CallReports | SocketExams_vs17/uWebSocketsServer/helpers/optparse.h:198-268 | however deep the recursion, a call reports what the first argument behind the non-options says, and moves `optind` by what it consumed |
| Optparse.CallMovesConsumedForward | SocketExams_vs17/uWebSocketsServer/helpers/optparse.h:174-219 | a call rewrites N ++ C ++ R to C ++ N ++ R with `optind` just after C |
| OptparseSyntax.CallActs | SocketExams_vs17/uWebSocketsServer/helpers/optparse.h:156-172 | on the characters: a permuting call steps over an argument exactly if it is shorter than two, does not begin with '-', or begins with "--" and is longer; at "--" it consumes just that and reports the end; at letters it reports the one behind the cursor |
| OptparseSyntax.CallStops | SocketExams_vs17/uWebSocketsServer/helpers/optparse.h:213-222 | without permutation such an argument ends the options |
| OptparseSyntax.UndeclaredLetter | SocketExams_vs17/uWebSocketsServer/helpers/optparse.h:226-234 | a letter not in the option string, or ':', is an error |
| OptparseSyntax.NoLetter | SocketExams_vs17/uWebSocketsServer/helpers/optparse.h:226-234 | so is the NUL at the end of the letters |
| OptparseSyntax.DeclaredLetter | SocketExams_vs17/uWebSocketsServer/helpers/optparse.h:184-266 | what a letter of the option string does with no, one and two colons behind it, at the end of its cluster and before |
| OptparseRun.DrainFollows | SocketExams_vs17/uWebSocketsServer/helpers/optparse.h:198-268 | for every argument vector, undeclared letters included: calling until -1, or until a call would read past an argument, reports the options read with the cursor carried on, and leaves the consumed arguments in order followed by the others in order |
| OptparseRun.AlignedExactly | SocketExams_vs17/uWebSocketsServer/helpers/optparse.h:224-242 | the cursor stays aligned if and only if every option argument but the first is begun with cursor 0, and then this is the reference parse |
| OptparseRun.AlignedRunsExactly | SocketExams_vs17/uWebSocketsServer/helpers/optparse.h:224-242 | the same of the cursors of the calls themselves |
| OptparseRun.DrainMatchesParse | SocketExams_vs17/uWebSocketsServer/helpers/optparse.h:198-268 | the calls report the options of the reference parser, read from the same places, if and only if the cursor stays aligned; they then leave what the reference leaves and never read past an argument |
| OptparseSyntax.DrainDivides | SocketExams_vs17/uWebSocketsServer/helpers/optparse.h:198-268 | on the characters: a run leaves the operands over, consumes letters with or without the argument behind them, and at "--" consumes that and leaves all behind it over |
| OptparseSyntax.DrainAtTerminator | SocketExams_vs17/uWebSocketsServer/helpers/optparse.h:198-219 | when "--" is the first argument that is not an operand, no option is reported and all behind it is left over |
| OptparseRun.ParseOfTaken | SocketExams_vs17/uWebSocketsServer/helpers/optparse.h:198-268 | parsing the consumed arguments alone gives the same options and leaves nothing over |
| OptparseRun.ParseSplits | SocketExams_vs17/uWebSocketsServer/helpers/optparse.h:198-268 | consumed and remaining arguments are an in-order split of all arguments |
| OptparseRun.NextCallInsideExactly | SocketExams_vs17/uWebSocketsServer/helpers/optparse.h:224-242 | the next call reads inside an argument if and only if the letter is declared, or the first of its cluster, or no option argument follows, or the cursor lies inside the one that follows |
| OptparseRun.CursorKeptExactly | SocketExams_vs17/uWebSocketsServer/helpers/optparse.h:224-242 | the cursor field stays in order if and only if the letter is declared or the first of its cluster |
| OptparseRun.StaleCursorSkipsLetters | SocketExams_vs17/uWebSocketsServer/helpers/optparse.h:229-234 | otherwise the next option argument is read from the stale cursor if it is long enough, and past its end if not |
| OptparseRun.RunsPastTheEnd | SocketExams_vs17/uWebSocketsServer/helpers/optparse.h:144-268 | `prog -abx -b` with options "ab", from the initial state: the fourth call reads past the end of `-b` |
| OptparseRun.LosesALetter | SocketExams_vs17/uWebSocketsServer/helpers/optparse.h:144-268 | `prog -ax -ab` with options "ab", from the initial state: one letter is never reported |
| OptparseLong.CompileFits | SocketExams_vs17/uWebSocketsServer/helpers/optparse.h:287-334 | 96 entries fit the 289-byte buffer |
| OptparseLong.PutEntry | SocketExams_vs17/uWebSocketsServer/helpers/optparse.h:293-298 | one entry appended in place |
| OptparseLong.FromLong | SocketExams_vs17/uWebSocketsServer/helpers/optparse.h:287-301 | the loops fill the buffer with the compiled string and a NUL |
| OptparseLong.LookupExactly | SocketExams_vs17/uWebSocketsServer/helpers/optparse.h:184-196 | lookup in the compiled string gives the type of the first entry with that name, for every letter, if and only if no entry is named ':' |
| OptparseLong.Matches | SocketExams_vs17/uWebSocketsServer/helpers/optparse.h:304-314 | the loop decides whether the part before "=" is the name |
| USocketLists.AttachChain | SocketExams/uSockets/src/context.c:145-154 | the pointer updates of linking make the list with the socket in front |
| USocketLists.BypassChain | SocketExams/uSockets/src/context.c:129-140 | the pointer updates of unlinking make the list without the socket |
| USocketLists.SoleElement | SocketExams/uSockets/src/context.c:129-131 | `prev == next` holds exactly for the only element |
| USocketLoop.LinkRefinesPrepend | SocketExams/uSockets/src/context.c:145-154 | linking prepends to one list and leaves every other list, the closed list and every sweep position right |
| USocketLoop.CloseRefinesMove | SocketExams/uSockets/src/socket.c:66-80 | closing moves a socket from its list to the front of the closed list and corrects the sweep position |
| USocketLoop.IsClosedExactly | SocketExams/uSockets/src/socket.c:102-108 | `us_socket_is_closed` holds exactly for the sockets of the closed list, and fails exactly for those in their context's list |
| USocketEvents.ExecKeepsGood | SocketExams/uSockets/src/socket.c:26-100 | every call, nested callbacks included, keeps lists, log and poll interest in order |
| USocketEvents.RunKeepsGood | SocketExams/uSockets/src/socket.c:26-100 | so does every callback |
| USocketEvents.FlagFollowsWrites | SocketExams/uSockets/src/socket.c:26-39 | after any callback `last_write_failed` is set exactly if it was before or some write of the callback fell short, and the sockets owing a write grow by exactly those |
| USocketSweep.VisitStep | SocketExams/uSockets/src/loop.c:88-102 | one turn of the inner loop, whatever the callback does, shortens what is left and loses no socket that stays |
| USocketSweep.SweepVisitsExactlyOnce | SocketExams/uSockets/src/loop.c:86-105 | for any callbacks the sweep of a context ends, visits each socket that stays exactly once, and none linked into it meanwhile |
| USocketSweep.WholeSweepVisits | SocketExams/uSockets/src/loop.c:80-106 | over all contexts: a socket linked before and after is visited in its context's turn |
| USocketSweep.WholeSweepNeverTwice | SocketExams/uSockets/src/loop.c:80-106 | over all contexts: no socket is visited twice in a turn, nor in two turns |
| USocketSweep.LinkedDuringSweep | SocketExams/uSockets/src/loop.c:80-106 | a socket linked meanwhile, and kept, is visited if and only if its context's turn is still to come |
| USocketSweep.SweepsForTimeout | SocketExams/uSockets/src/socket.c:49-56 | the number of sweeps is max(1, floor((s + 2) / 4)) if and only if s is at most 262141 |
| USocketSweep.SweepsExactly | SocketExams/uSockets/src/socket.c:49-56 | the number of sweeps of every timeout, the 16-bit wrap included |
| USocketSweep.ElapsedTime | SocketExams/uSockets/src/loop.c:242-244 | the time from setting a timeout to its last sweep, if sweeps come every 4 seconds |
| USocketDispatch.FreeKeepsGood | SocketExams/uSockets/src/loop.c:115-126 | freeing the closed list keeps everything in order |
| USocketDispatch.OnePlaceInEveryRun | SocketExams/uSockets/src/loop.c:115-126 | in every state of every run a socket ever linked is in exactly one of one context's list, the closed list, freed; flag and log say which |
| USocketDispatch.OnceInEveryRun | SocketExams/uSockets/src/loop.c:86-126 | in every run no visit follows a close, and no socket is closed or freed twice |
| USocketDispatch.LinkedMeanwhileVisited | SocketExams/uSockets/src/loop.c:80-106 | a run from the empty loop in which a sweep visits a socket that an earlier turn of it linked |
| USocketDispatch.DispatchKeepsGood | SocketExams/uSockets/src/loop.c:189-236 | a ready poll, with whatever its callbacks do, keeps everything in order |
| USocketPolls.CallbackClosesExactly | SocketExams/uSockets/src/socket.c:66-85 | after a callback just those sockets are closed that were before and those it has closed |
| USocketPolls.PollClosesExactly | SocketExams/uSockets/src/loop.c:189-236 | after a ready poll just those are closed that were before, those that a callback that runs has closed, and the socket itself on an error, a read error, or the end of the stream after a shutdown |
| USocketPolls.PollClosesOnlyItself | SocketExams/uSockets/src/loop.c:189-236 | so an open socket that no callback closes is closed if and only if it is the polled one and one of these three holds |
| USocketPolls.NothingHappens | SocketExams/uSockets/src/loop.c:216-231 | a read that would block changes nothing |
| USocketPolls.CallbackPolls | SocketExams/uSockets/src/socket.c:26-100 | after a callback a socket polls for READABLE exactly if it did or a write on it fell short, and for WRITABLE exactly if so and not shut down |
| USocketPolls.RoundEndPolls | SocketExams/uSockets/src/loop.c:206-213 | the end of a writable round takes at most WRITABLE, and from its own socket only |
| USocketPolls.EndOfStreamStopsReading | SocketExams/uSockets/src/loop.c:224-227 | at the end of the stream `on_end` begins with just the READABLE poll of the socket ended |
| USocketPolls.SweepPolls | SocketExams/uSockets/src/loop.c:86-105 | a sweep closes just what its callbacks close and changes polls only by the writes they make |
| USocketPolls.CountedExactly | SocketExams/uSockets/src/loop.c:91 | counting down changes nothing but the timer |
| USocketPolls.ShutdownExactly | SocketExams/uSockets/src/socket.c:91-100 | a shutdown takes WRITABLE and leaves the rest of the record |
| USocketPolls.NewSocket | SocketExams/uSockets/src/loop.c:168-181 | a new socket is first in its list, has no timeout and polls for READABLE alone |
| USocketPolls.FreeFreesClosed | SocketExams/uSockets/src/loop.c:115-126 | freeing takes just the closed sockets out of memory |
| USocketDispatch.RunStaysGood | SocketExams/uSockets/src/loop.c:65-236 | every state of every run of calls, polls, sweeps and frees is in order |
| USocketWrites.OpFollowsWrites | SocketExams/uSockets/src/loop.c:189-236 | after every operation the sockets owing a write are those before, less the one of a round in which no write fell short, plus those whose write fell short |
| USocketWrites.WriteInterestNeverLost | SocketExams/uSockets/src/loop.c:200-214 | in every run a socket with a short write, and no `on_writable` round of its own without a short write since, polls for WRITABLE unless shut down or closed; both are read off the writes, not off the flag |
| USocketDispatch.ShutDownForever | SocketExams/uSockets/src/socket.c:91-100 | once shut down a socket never polls for WRITABLE again |
| USocketDispatch.FreedStaysFreed | SocketExams/uSockets/src/loop.c:115-126 | a freed socket is never in memory again |
| USocketTimers.TimerCountsSweeps | SocketExams/uSockets/src/loop.c:86-105 | in every run, as long as the socket stays open and its timeout is not set anew, a timer counts the sweeps of its context |
| USocketTimers.FiresExactlyAt | SocketExams/uSockets/src/loop.c:86-105 | it fires exactly in the sweep that uses it up, if that sweep gets to the socket before another callback closes it or sets its timeout; its own callback may do either |
| USocketTimers.TimeoutFires | SocketExams/uSockets/src/socket.c:49-56 | in every run, from any state in which the counter is that of a timeout of s seconds, it fires exactly at the max(1, floor((s + 2) / 4))-th following sweep of its context that gets to it |
| USocketTimers.LastCallSetsTimer | SocketExams/uSockets/src/socket.c:49-56 | any callback whose last call sets the timeout leaves such a state |
| USocketTimers.FiresInTime | SocketExams/uSockets/src/loop.c:242-244 | in every run in which the sweeps of its context come every 4 seconds, a timeout of s seconds that fires does so more than s - 5 and at most s + 3 seconds after it was set |
| USocketTimers.WholeSweepTicks | SocketExams/uSockets/src/loop.c:80-106 | a whole sweep that does not set a timeout counts it down once exactly if it gets to the socket, and then fires exactly at one; it gets to every socket of its contexts that stays open |
| USockets.Loop.Link | SocketExams/uSockets/src/context.c:145-154 | the assignments of linking, as the function on records |
| USockets.Loop.OpenSocket | SocketExams/uSockets/src/loop.c:168-181 | a new socket is linked into the context |
| USockets.Loop.Unlink | SocketExams/uSockets/src/context.c:123-141 | the assignments of unlinking, sweep position included |
| USockets.Loop.CloseSocket | SocketExams/uSockets/src/socket.c:66-85 | closing with its callback |
| USockets.Loop.SetSocketTimeout | SocketExams/uSockets/src/socket.c:49-56 | max(1, floor((s + 2) / 4)) sweeps up to 262141 seconds, none for 0, and everything stays in order |
| USockets.Loop.WriteSocket | SocketExams/uSockets/src/socket.c:26-39 | returns what was written on an open socket and 0 otherwise; after a short write the flag is set and the socket polls for WRITABLE |
| USockets.Loop.ShutdownSocket | SocketExams/uSockets/src/socket.c:91-100 | an open socket is shut down and does not poll for WRITABLE, and everything stays in order |
| USockets.Loop.VisitSocket | SocketExams/uSockets/src/loop.c:88-102 | the body of the inner loop |
| USockets.Loop.Sweep | SocketExams/uSockets/src/loop.c:86-105 | the pointer-following loop visits and fires what the sweep function says and ends in its state |
| USockets.Loop.SweepLoop | SocketExams/uSockets/src/loop.c:80-106 | the outer loop, following `next` from the first context, sweeps the contexts of that list in order |
| USockets.Loop.FreeChain | SocketExams/uSockets/src/loop.c:118-123 | the loop over the closed list frees exactly its members |
| USockets.Loop.FreeClosed | SocketExams/uSockets/src/loop.c:115-126 | afterwards the closed list is empty |
| USockets.Loop.Writable | SocketExams/uSockets/src/loop.c:200-214 | a round without a short write ends the WRITABLE poll, and everything stays in order |
| USockets.Loop.Readable | SocketExams/uSockets/src/loop.c:216-231 | an error, or the end of the stream on a socket shut down, leaves the socket closed; everything stays in order |
| USockets.Loop.DispatchPoll | SocketExams/uSockets/src/loop.c:189-236 | the whole dispatch of a ready socket |
| Streambuf.ReserveKeepsContents | SocketExams/3rdLib/asio/asio/basic_streambuf.hpp:308-346 | compaction and growth keep the readable bytes and make room; `reserve(n)` throws exactly when size + n exceeds the maximum |
| Streambuf.ReserveRoomExactly | SocketExams/3rdLib/asio/asio/basic_streambuf.hpp:308-346 | how much room `reserve` leaves |
| Streambuf.ThrowKeepsContentsExactly | SocketExams/3rdLib/asio/asio/basic_streambuf.hpp:322-340 | after a throw the readable bytes are the same if and only if they read the same shifted by the consumed offset |
| Streambuf.ThrowCanLoseBytes | SocketExams/3rdLib/asio/asio/basic_streambuf.hpp:308-340 | a run from the empty buffer of at most three bytes: three written and committed, one consumed, a `prepare(2)` that throws, and the readable bytes have changed |
| Streambuf.CommitAppends | SocketExams/3rdLib/asio/asio/basic_streambuf.hpp:233-238 | `commit` moves the front of the output sequence to the back of the input sequence |
| Streambuf.CommitExactly | SocketExams/3rdLib/asio/asio/basic_streambuf.hpp:233-238 | it moves the right number of bytes if and only if that number fits an `int` |
| Streambuf.ConsumeDrops | SocketExams/3rdLib/asio/asio/basic_streambuf.hpp:247-254 | `consume` drops a prefix and nothing else |
| Streambuf.ConsumeExactly | SocketExams/3rdLib/asio/asio/basic_streambuf.hpp:247-254 | by the right number if and only if it fits an `int` |
| Streambuf.MovesWrap | SocketExams/3rdLib/asio/asio/basic_streambuf.hpp:233-254 | beyond `INT_MAX` both move what is left of the number in 32 bits with a sign |
| Streambuf.GetAreaExactly | SocketExams/3rdLib/asio/asio/basic_streambuf.hpp:233-274 | the get area is a prefix of the contents, and all of them after `commit`, `consume` and `underflow` |
| Streambuf.OverflowAppends | SocketExams/3rdLib/asio/asio/basic_streambuf.hpp:283-306 | `overflow` appends one byte, equal to its argument modulo 256, and throws exactly when size equals the maximum |
| Streambuf.OverflowRoomExactly | SocketExams/3rdLib/asio/asio/basic_streambuf.hpp:287-301 | when the put area is full it makes room for 128 bytes, or for all that the maximum allows |
| Streambuf.StepActsOnQueue | SocketExams/3rdLib/asio/asio/basic_streambuf.hpp:214-346 | every operation acts on the two sequences as documented and throws exactly when it must |
| Streambuf.SizeStaysBounded | SocketExams/3rdLib/asio/asio/basic_streambuf.hpp:131-346 | size never exceeds the maximum in any reachable state, throws included |
| Streambuf.FirstInFirstOut | SocketExams/3rdLib/asio/asio/basic_streambuf.hpp:214-346 | over every run without a throw the bytes taken followed by the contents are the bytes given |
| Streambuf.RefinesBoundedQueue | SocketExams/3rdLib/asio/asio/basic_streambuf.hpp:214-346 | any run of prepare-write-commit and consume yields the bytes of a bounded queue and throws where the queue is full |
| Streambuf.BasicStreambuf.constructor | SocketExams/3rdLib/asio/asio/basic_streambuf.hpp:131-141 | the empty buffer |
| Streambuf.BasicStreambuf.Reserve | SocketExams/3rdLib/asio/asio/basic_streambuf.hpp:308-346 | the in-place move and the reallocation compute the function |
| Streambuf.BasicStreambuf.Prepare | SocketExams/3rdLib/asio/asio/basic_streambuf.hpp:214-219 | throws exactly when size + n exceeds the maximum |
| Streambuf.BasicStreambuf.Commit | SocketExams/3rdLib/asio/asio/basic_streambuf.hpp:233-238 | up to `INT_MAX` bytes the contents become the old contents and the front of the old output sequence |
| Streambuf.BasicStreambuf.Consume | SocketExams/3rdLib/asio/asio/basic_streambuf.hpp:247-254 | up to `INT_MAX` bytes the contents lose a prefix |
| Streambuf.BasicStreambuf.Underflow | SocketExams/3rdLib/asio/asio/basic_streambuf.hpp:263-274 | the first readable byte or the end |
| Streambuf.BasicStreambuf.Overflow | SocketExams/3rdLib/asio/asio/basic_streambuf.hpp:283-306 | stores the byte it is given, and returns it, or throws exactly at the maximum |
| Semaphore.RunBalances | SocketExams/RJCommon/RJSemaphore.cpp:63-151 | in every interleaving the books balance, wasted signals included |
| Semaphore.CounterIsExact | SocketExams/RJCommon/RJSemaphore.cpp:63-151 | the counter is initial count plus releases minus successful waits minus calls inside `Wait`; successful and signalled waits never exceed initial count plus releases |
| Semaphore.BlockedExactly | SocketExams/RJCommon/RJSemaphore.cpp:63-151 | without timed waits exactly max(0, -count) threads are blocked |
| Semaphore.EvenExactly | SocketExams/RJCommon/RJSemaphore.cpp:63-151 | with timed waits, blocked and timed-out threads number max(0, -count) all along a run if and only if no release signals when nobody is blocked |
| Semaphore.WasteNeedsTimeout | SocketExams/RJCommon/RJSemaphore.cpp:74-84 | such a release needs a thread that has timed out and not yet left `Wait` |
| Semaphore.NoLostWakeup | SocketExams/RJCommon/RJSemaphore.cpp:63-151 | if no release comes while a thread that timed out has yet to leave, nobody is ever blocked unless the counter is negative |
| Semaphore.NoneForgottenExactly | SocketExams/RJCommon/RJSemaphore.cpp:63-151 | all along a run nobody is blocked at a counter that is not negative if and only if no thread gives up at counter -1 with another one blocked and no release comes at counter -1 with two blocked |
| Semaphore.ForgettingNeedsWaste | SocketExams/RJCommon/RJSemaphore.cpp:63-151 | either takes an earlier release that signalled when nobody was blocked |
| Semaphore.WakeupCanBeLost | SocketExams/RJCommon/RJSemaphore.cpp:63-151 | a run after which a thread without a timeout is blocked although the counter is 1 |
| Semaphore.ReleaseWakes | SocketExams/RJCommon/RJSemaphore.cpp:63-90 | with no timeout under way a release of n wakes exactly min(n, blocked) threads |
| Semaphore.ReleaseAllWakesAll | SocketExams/RJCommon/RJSemaphore.cpp:37-61 | and `ReleaseAll` wakes all and leaves no negative counter |
| Semaphore.RJSemaphore.CountUp | SocketExams/RJCommon/RJSemaphore.cpp:51-53 | the increment and the test whether to signal make one release step |
| Semaphore.RJSemaphore.Release | SocketExams/RJCommon/RJSemaphore.cpp:63-90 | the loop makes as many release steps as asked, none for a negative count |
| Semaphore.RJSemaphore.ReleaseAll | SocketExams/RJCommon/RJSemaphore.cpp:37-61 | the loop makes as many release steps as the counter is below zero |
| Semaphore.RJSemaphore.Enter | SocketExams/RJCommon/RJSemaphore.cpp:109-121 | `Wait` up to the condition variable |
| Semaphore.RJSemaphore.Leave | SocketExams/RJCommon/RJSemaphore.cpp:123-149 | `Wait` after the condition variable, by signal or timeout; it reports success exactly for a wait that is counted as successful |
| Frame.IntReads | SocketExams/libuvClient_test/MyClient.cpp:76-77 | a number in decimal reads back as the number, whatever its sign |
| Frame.DecimalDigits | SocketExams/libuvClient_test/MyClient.cpp:76-77 | the digits, and that the last one is the remainder by ten |
| Frame.AtoiMeaning | SocketExams/libuvClient_test/MyClient.cpp:123-124 | `atoi` skips white space, takes a sign and reads digits up to what is no digit |
| Frame.EncodeAt | SocketExams/libuvClient_test/MyClient.cpp:71-79 | what each byte of the frame is: payload from 40, command and NUL from 9, number and NUL from 0, filler between |
| Frame.DecodersExactly | SocketExams/LibuvServer_test/MyServer.cpp:123-126 | which frames the two sides refuse and which bytes they read of the others |
| Frame.ServerReadsExactly | SocketExams/LibuvServer_test/MyServer.cpp:116-130 | for any filler the server decodes the number, command and payload sent if and only if the number is below 10^9 and the command has at most 31 bytes |
| Frame.ClientReadsExactly | SocketExams/libuvClient_test/MyClient.cpp:112-132 | the client if and only if the number is below 10^8, the command has at most 31 bytes and there is a payload |
| Frame.EchoReadsExactly | SocketExams/LibuvServer_test/MyServer.cpp:52-61 | an `STX_COMMAND` request comes back to the client as the same triple if and only if its number is below 10^8 and it has a payload |
| Frame.EchoExactly | SocketExams/LibuvServer_test/MyServer.cpp:116-130 | the server answers exactly frames of 40 bytes and more whose command is "STX_COMMAND", with the same payload, command and number |
| Frame.EchoFits | SocketExams/LibuvServer_test/MyServer.cpp:52-61 | whatever arrives, the echo stays inside its buffer |
| Frame.CopyInto | SocketExams/libuvClient_test/MyClient.cpp:77-79 | copying a string into the buffer changes just its place |
| Frame.FillFrame | SocketExams/libuvClient_test/MyClient.cpp:71-79 | the buffer holds the encoded frame over whatever was in it |
| SyncRpc.NextKeepsInv | SocketExams/libuvClient_test/MyClient.cpp:112-321 | every step of every call and of the receiver keeps the maps, the semaphores and the answers in order |
| SyncRpc.MapsMatchCalls | SocketExams/libuvClient_test/MyClient.cpp:259-321 | in every interleaving answers belong to registered calls, registered are exactly the calls not yet cleaned up, and every stored semaphore belongs to a call that has not returned |
| SyncRpc.OwnAnswer | SocketExams/libuvClient_test/MyClient.cpp:275-320 | in every interleaving a call has an answer if and only if its wait succeeded, and it is the body of a message with its own number |
| SyncCalls.Lifecycle | SocketExams/libuvClient_test/MyClient.cpp:259-321 | in every run what a call has done tells exactly where it is and which error code it has |
| SyncCalls.ReturnCodes | SocketExams/libuvClient_test/MyClient.cpp:267-321 | a call that has returned has waited exactly if its send worked; its error code is 0 exactly if it took an answer, that of the send if that failed, and that of a timeout if it gave up |
| SyncCalls.FailedSend | SocketExams/libuvClient_test/MyClient.cpp:267-272 | after a failed send the clean-up can be taken at once, nobody ever waits on the semaphore, and the call has no answer and the error code of the send |
| SyncCalls.CallCanGoOn | SocketExams/libuvClient_test/MyClient.cpp:259-321 | a call that has not returned can go on, or is blocked with no message arrived for it |
| SyncCalls.EveryMessageReleases | SocketExams/libuvClient_test/MyClient.cpp:128-136 | each message for a registered call releases its semaphore once, and nothing else does |
| SyncCalls.NoAnswerMissed | SocketExams/libuvClient_test/MyClient.cpp:128-136 | a call blocked in its wait has had no answer |
| SyncRpc.TakesLatest | SocketExams/libuvClient_test/MyClient.cpp:279-288 | it is the last such message so far |
| SyncRpc.Routed | SocketExams/libuvClient_test/MyClient.cpp:126-147 | a message goes to the dispatcher exactly when no registered call has its number |
| SyncRpc.NothingLeaks | SocketExams/libuvClient_test/MyClient.cpp:304-317 | when all calls have returned both maps are empty |
| SyncRpc.SyncCallEchoes | SocketExams/libuvClient_test/MyClient.cpp:259-321 | end to end, against an echoing server, a call that gets an answer gets its own payload back |
| SyncRpc.MyClient.GetSyscReqSem | SocketExams/libuvClient_test/MyClient.cpp:246-257 | finds a pointer exactly for a registered call, and it is to that call's own semaphore, which still exists |
| SyncRpc.MyClient.Receive | SocketExams/libuvClient_test/MyClient.cpp:126-147 | stores the answer and releases the semaphore, or queues the message |
| SyncRpc.MyClient.Begin | SocketExams/libuvClient_test/MyClient.cpp:261-265 | draws a number and registers |
| SyncRpc.MyClient.TakeAnswer | SocketExams/libuvClient_test/MyClient.cpp:279-288 | a call whose wait succeeded finds its answer, split into command and value |
| SyncRpc.MyClient.Finish | SocketExams/libuvClient_test/MyClient.cpp:304-320 | removes both entries |

## Left out

- Whether a scheduler lets the sort's threads get to the end (what is proved is when they still can); file input, printing and thread creation; a wait on `g_cv` that returns without a notification.
- `optparse_long` itself and `optparse_arg`; the text of `errmsg`; short names outside the range of a character.
- uSockets: SSL, adopting sockets into another context, listening and connecting sockets (so write interest of a socket still connecting), contexts created during a callback, and what the kernel does with a descriptor.
- uSockets' sockets are addressed by numbers that are never used again, so that memory of a freed socket given to a new one is not modelled; a call on a freed socket does nothing.
- USocketSweep.SweepVisitsExactlyOnce: is about one context; over the whole loop the claim about sockets linked meanwhile is `LinkedDuringSweep`.
- Streambuf: allocation failure, `data`, `capacity`, `read_size_helper`, the adapter class, and the reading and writing that the standard library's base class does by itself; offsets are unbounded, so that the pointer comparison in `consume` does not overflow.
- The Windows branches of RJSemaphore and RJLock, clock arithmetic, `m_lWaiterCount`, the result code of `ReleaseAll`, and errors of the condition variable other than a timeout.
- Synchronous calls: the dispatcher threads and their vectors beyond the order of queueing, connection events, and frames split or joined by TCP.
- The remaining programs: mongoose, curl, websocketpp and uvpp mains, AsyncFileReader and AsyncFileStreamer, RJTcpClient and RJTcpServer, Black-Scholes, and all C# code are glue over libraries or are not part of this model.
