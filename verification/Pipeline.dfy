/** From the wire to the disk and back: pieces found on disk or downloaded are verified, handed to the main loop,
    written, marked as had, counted, and served. */
module Pipeline {
  import opened Base
  import opened Events
  import opened Geometry
  import opened Sets
  import opened Storage
  import opened CoordinatorState
  import opened AssignmentInvariants
  import Completion

  /** What the main loop owns. */
  datatype Ledger = Ledger(disk: Bytes, have: set<int>, completed: int, bytesOwned: int, complete: bool)

  /** The whole client. The histories are never read by a move: how many failures named a piece that was complete, which
      downloads were dropped because the client was being cancelled, and which results were stored a second time. */
  datatype Client = Client(coord: State, ledger: Ledger, late: nat, dropped: seq<int>, again: seq<int>)

  datatype Move = Coordinate(step: Step) | StoreResult

  /** Bytes that may be reported as piece index: the right length and the torrent's hash. */
  ghost predicate Genuine(c: Config, sha: Bytes -> Digest, index: int, data: Bytes) {
    && c.layout.Valid() && 0 <= index < c.layout.pieceCount
    && |data| == c.layout.Size(index) && Verified(sha, data, c.hashes[index])
  }

  ghost function VerifiedOn(c: Config, sha: Bytes -> Digest, disk: Bytes): set<int>
    requires c.layout.Valid() && |disk| == c.layout.totalLength
  {
    set i | 0 <= i < c.layout.pieceCount && OnDisk(sha, c.layout, c.hashes, disk, i)
  }

  /** Start-up: whatever already checks out on the file, which has been given its full size, is kept. */
  ghost function Resumed(c: Config, sha: Bytes -> Digest, disk: Bytes): Ledger
    requires c.layout.Valid() && |disk| == c.layout.totalLength
  {
    var have := VerifiedOn(c, sha, disk);
    Ledger(disk, have, |have|, OwnedBytes(c.layout, have, c.layout.pieceCount), |have| == c.layout.pieceCount)
  }

  ghost function MarkAll(c: Config, have: set<int>): (s: State)
    ensures Shape(c, s) && Starts(c, s)
    ensures Incomplete(s.pieces) == Others(c.layout.pieceCount, have)
  {
    Initial(c).(pieces := seq(c.layout.pieceCount, i => if i in have then Complete else Missing))
  }

  ghost function StartUp(c: Config, sha: Bytes -> Digest, disk: Bytes): Client
    requires c.layout.Valid() && |disk| == c.layout.totalLength
  {
    var ledger := Resumed(c, sha, disk);
    Client(MarkAll(c, ledger.have), ledger, 0, [], [])
  }

  /** The main loop takes a result: write, mark, count. A failed write ends the download. */
  function Store(c: Config, g: Ledger, r: PieceResult): Result<Ledger, StorageError> {
    match WritePiece(c.layout, g.disk, r.index, r.data)
    case Err(e) => Err(e)
    case Ok(disk) =>
      var completed := g.completed + 1;
      Ok(Ledger(disk, g.have + {r.index}, completed, g.bytesOwned + |r.data|,
                g.complete || completed == c.layout.pieceCount))
  }

  /** The "left" that is announced to the tracker. */
  function Announced(c: Config, g: Ledger): int {
    var left := c.layout.totalLength - g.bytesOwned;
    if left < 0 then 0 else left
  }

  /** Workers report only genuine pieces. In joint runs of the client and its connections this is not assumed but
      proved. */
  ghost predicate CanMove(c: Config, sha: Bytes -> Digest, y: Client, m: Move)
    requires Shape(c, y.coord)
  {
    match m
    case Coordinate(step) =>
      && Enabled(c, y.coord, step) && !step.ResultTaken?
      && (step.Downloaded? ==> Genuine(c, sha, step.index, step.data))
    case StoreResult => y.coord.results != [] && Store(c, y.ledger, y.coord.results[0]).Ok?
  }

  ghost predicate FailsLate(s: State, step: Step) {
    step.Failed? && 0 <= step.index < |s.pieces| && s.pieces[step.index] == Complete
  }

  ghost predicate Drops(s: State, step: Step) {
    step.Downloaded? && 0 <= step.index < |s.pieces| && s.pieces[step.index] != Complete && !step.delivered
  }

  ghost function After(c: Config, sha: Bytes -> Digest, y: Client, m: Move): (r: Client)
    requires Shape(c, y.coord) && CanMove(c, sha, y, m)
    ensures Shape(c, r.coord)
  {
    match m
    case Coordinate(step) =>
      y.(coord := Next(c, y.coord, step),
         late := y.late + if FailsLate(y.coord, step) then 1 else 0,
         dropped := y.dropped + if Drops(y.coord, step) then [step.index] else [])
    case StoreResult =>
      var r := y.coord.results[0];
      y.(coord := Next(c, y.coord, ResultTaken),
         ledger := Store(c, y.ledger, r).value,
         again := y.again + if r.index in y.ledger.have then [r.index] else [])
  }

  ghost predicate IsClientRun(
    c: Config, sha: Bytes -> Digest, disk: Bytes, trace: seq<Client>, moves: seq<Move>)
  {
    && c.layout.Valid() && |disk| == c.layout.totalLength
    && |trace| == |moves| + 1 && trace[0] == StartUp(c, sha, disk)
    && forall k :: 0 <= k < |moves| ==>
         && Shape(c, trace[k].coord) && CanMove(c, sha, trace[k], moves[k])
         && trace[k + 1] == After(c, sha, trace[k], moves[k])
  }

  /** Runs are what a client that makes one possible move after another goes through. */
  lemma {:induction false} ClientRunsExtend(
    c: Config, sha: Bytes -> Digest, disk: Bytes, trace: seq<Client>, moves: seq<Move>, m: Move)
    requires IsClientRun(c, sha, disk, trace, moves)
    requires Shape(c, trace[|moves|].coord) && CanMove(c, sha, trace[|moves|], m)
    ensures IsClientRun(c, sha, disk, trace + [After(c, sha, trace[|moves|], m)], moves + [m])
    ensures IsClientRun(c, sha, disk, [StartUp(c, sha, disk)], [])
  {
    hide After, CanMove, StartUp;
    var longer, more := trace + [After(c, sha, trace[|moves|], m)], moves + [m];
    forall k | 0 <= k < |more|
      ensures Shape(c, longer[k].coord) && CanMove(c, sha, longer[k], more[k])
      ensures longer[k + 1] == After(c, sha, longer[k], more[k])
    {
      if k < |moves| { assert more[k] == moves[k] && longer[k] == trace[k] && longer[k + 1] == trace[k + 1]; }
    }
  }

  // ----- integrity -----

  /** The pieces marked as had are exactly those that hash correctly on disk, and everything on its way there does
      too. */
  ghost predicate Intact(c: Config, sha: Bytes -> Digest, y: Client) {
    && c.layout.Valid() && |y.ledger.disk| == c.layout.totalLength
    && y.ledger.have == VerifiedOn(c, sha, y.ledger.disk)
    && (forall k :: 0 <= k < |y.coord.results| ==> Genuine(c, sha, y.coord.results[k].index, y.coord.results[k].data))
  }

  /** A genuine result can always be written, and afterwards its piece checks out on disk and no other piece has
      changed. */
  lemma {:induction false} StoringKeepsIntact(c: Config, sha: Bytes -> Digest, g: Ledger, r: PieceResult)
    requires c.layout.Valid() && |g.disk| == c.layout.totalLength && Genuine(c, sha, r.index, r.data)
    requires g.have == VerifiedOn(c, sha, g.disk)
    ensures Store(c, g, r).Ok? && |Store(c, g, r).value.disk| == c.layout.totalLength
    ensures Store(c, g, r).value.have == VerifiedOn(c, sha, Store(c, g, r).value.disk) == g.have + {r.index}
  {
    hide WritePiece, PieceBytes;
    WritePieceTouchesOnlyIt(c.layout, g.disk, r.index, r.data);
    var disk := Store(c, g, r).value.disk;
    forall i | 0 <= i < c.layout.pieceCount && i != r.index
      ensures OnDisk(sha, c.layout, c.hashes, disk, i) == OnDisk(sha, c.layout, c.hashes, g.disk, i) {}
    assert OnDisk(sha, c.layout, c.hashes, disk, r.index);
  }

  lemma {:induction false} MoveKeepsIntact(c: Config, sha: Bytes -> Digest, y: Client, m: Move)
    requires Shape(c, y.coord) && CanMove(c, sha, y, m) && Intact(c, sha, y)
    ensures Intact(c, sha, After(c, sha, y, m))
  {
    hide Next, Enabled, Genuine, Store, OnDisk, VerifiedOn;
    match m
    case Coordinate(step) => Completion.ResultsAfterStep(c, y.coord, step);
    case StoreResult =>
      EnabledResultTaken(c, y.coord);
      Completion.ResultsAfterStep(c, y.coord, ResultTaken);
      StoringKeepsIntact(c, sha, y.ledger, y.coord.results[0]);
  }

  lemma {:induction false} EnabledResultTaken(c: Config, s: State)
    requires Shape(c, s) && s.results != []
    ensures Enabled(c, s, ResultTaken)
  {
  }

  /** Whatever peers send and in whatever order pieces finish, in every reachable state the pieces marked as had,
      resumed or downloaded, are exactly those whose on-disk bytes hash to what the torrent says; and no write of a
      result ever fails. */
  lemma {:induction false} HadPiecesAreVerified(
    c: Config, sha: Bytes -> Digest, disk: Bytes, trace: seq<Client>, moves: seq<Move>, k: nat)
    requires IsClientRun(c, sha, disk, trace, moves) && k < |trace|
    ensures Intact(c, sha, trace[k])
    ensures forall i :: i in trace[k].ledger.have <==>
      0 <= i < c.layout.pieceCount && OnDisk(sha, c.layout, c.hashes, trace[k].ledger.disk, i)
    ensures trace[k].coord.results != [] ==> Store(c, trace[k].ledger, trace[k].coord.results[0]).Ok?
  {
    hide After, Store;
    if k > 0 {
      HadPiecesAreVerified(c, sha, disk, trace, moves, k - 1);
      MoveKeepsIntact(c, sha, trace[k - 1], moves[k - 1]);
    }
    if trace[k].coord.results != [] {
      StoringKeepsIntact(c, sha, trace[k].ledger, trace[k].coord.results[0]);
    }
  }

  // ----- conservation -----

  function Indices(results: seq<PieceResult>): seq<int> {
    seq(|results|, k requires 0 <= k < |results| => results[k].index)
  }

  ghost function SizeOf(c: Config, pieces: seq<int>): int
    requires c.layout.Valid()
  {
    if pieces == [] then 0
    else
      var last := pieces[|pieces| - 1];
      SizeOf(c, pieces[..|pieces| - 1]) + if 0 <= last < c.layout.pieceCount then c.layout.Size(last) else 0
  }

  /** The laws of the count, late failures included: every completion is stored, waiting, dropped, or undone late; what
      is counted beyond the pieces had is exactly what was stored again. */
  ghost predicate Accounts(c: Config, y: Client)
    requires Shape(c, y.coord) && c.layout.Valid()
  {
    var n, g := c.layout.pieceCount, y.ledger;
    && g.completed + |y.coord.results| + |y.dropped| + |Incomplete(y.coord.pieces)| == n + y.late
    && g.completed == |g.have| + |y.again|
    && g.bytesOwned == OwnedBytes(c.layout, g.have, n) + SizeOf(c, y.again)
    && (forall i :: 0 <= i < n && i !in Incomplete(y.coord.pieces) ==> Somewhere(y, i))
    && (g.complete <==> g.completed >= n)
  }

  ghost function Others(n: nat, have: set<int>): set<int> { set i | 0 <= i < n && i !in have }

  lemma {:induction false} SplitSize(n: nat, have: set<int>)
    requires forall i :: i in have ==> 0 <= i < n
    ensures |have| + |Others(n, have)| == n
  {
    UptoSize(n);
    assert Others(n, have) == Upto(n) - have;
    assert Upto(n) == have + (Upto(n) - have);
  }

  lemma {:induction false} StartAccounts(c: Config, sha: Bytes -> Digest, disk: Bytes)
    requires c.layout.Valid() && |disk| == c.layout.totalLength
    ensures Accounts(c, StartUp(c, sha, disk))
  {
    hide OnDisk;
    LastPiece(c.layout);
    SplitSize(c.layout.pieceCount, Resumed(c, sha, disk).have);
  }

  /** Counting alone: each completion is matched by a result or a drop, each failure of a complete piece by a late
      failure. */
  lemma {:induction false} StepBalances(c: Config, sha: Bytes -> Digest, y: Client, step: Step)
    requires Shape(c, y.coord) && CanMove(c, sha, y, Coordinate(step)) && Linked(c, y.coord)
    ensures var r := After(c, sha, y, Coordinate(step));
      |r.coord.results| + |r.dropped| + |Incomplete(r.coord.pieces)| - r.late ==
        |y.coord.results| + |y.dropped| + |Incomplete(y.coord.pieces)| - y.late
  {
    hide Next, Genuine, Incomplete, Enabled, Linked;
    Completion.IncompleteAfterStep(c, y.coord, step);
    Completion.ResultsAfterStep(c, y.coord, step);
    IndexIncomplete(c, y.coord, step);
    if step.Downloaded? || step.Failed? { OneInOrOut(Incomplete(y.coord.pieces), step.index); }
  }

  ghost predicate Somewhere(y: Client, i: int) {
    i in y.ledger.have || i in Indices(y.coord.results) || i in y.dropped
  }

  /** No piece is lost track of. */
  lemma {:induction false} StepKeepsTrack(c: Config, sha: Bytes -> Digest, y: Client, step: Step, i: int)
    requires Shape(c, y.coord) && CanMove(c, sha, y, Coordinate(step)) && Linked(c, y.coord)
    requires i in Incomplete(y.coord.pieces) || Somewhere(y, i)
    ensures i in Incomplete(After(c, sha, y, Coordinate(step)).coord.pieces) ||
      Somewhere(After(c, sha, y, Coordinate(step)), i)
  {
    hide Next, Genuine, Incomplete, Enabled, Linked;
    Completion.IncompleteAfterStep(c, y.coord, step);
    Completion.ResultsAfterStep(c, y.coord, step);
    IndexIncomplete(c, y.coord, step);
    var r := After(c, sha, y, Coordinate(step));
    if i in Indices(y.coord.results) {
      var k :| 0 <= k < |y.coord.results| && y.coord.results[k].index == i;
      assert Indices(r.coord.results)[k] == i;
    } else if step.Downloaded? && step.index == i && |r.coord.results| > |y.coord.results| {
      assert Indices(r.coord.results)[|y.coord.results|] == i;
    }
  }

  lemma {:induction false} StepAccounts(c: Config, sha: Bytes -> Digest, y: Client, step: Step)
    requires Shape(c, y.coord) && CanMove(c, sha, y, Coordinate(step)) && Linked(c, y.coord)
    requires c.layout.Valid() && Accounts(c, y)
    ensures Accounts(c, After(c, sha, y, Coordinate(step)))
  {
    hide Next, Genuine, OwnedBytes, Incomplete, Enabled, Linked, Indices;
    StepBalances(c, sha, y, step);
    var r := After(c, sha, y, Coordinate(step));
    forall i | 0 <= i < c.layout.pieceCount && i !in Incomplete(r.coord.pieces) ensures Somewhere(r, i) {
      StepKeepsTrack(c, sha, y, step, i);
    }
  }

  lemma {:induction false} IndexIncomplete(c: Config, s: State, step: Step)
    requires Shape(c, s) && Enabled(c, s, step)
    ensures step.Downloaded? || step.Failed? ==>
      && 0 <= step.index < c.layout.pieceCount
      && (step.index in Incomplete(s.pieces) <==> s.pieces[step.index] != Complete)
  {
  }

  lemma {:induction false} StoreAccounts(c: Config, sha: Bytes -> Digest, y: Client)
    requires Shape(c, y.coord) && CanMove(c, sha, y, StoreResult) && Intact(c, sha, y) && Accounts(c, y)
    ensures Accounts(c, After(c, sha, y, StoreResult))
  {
    hide OwnedBytes, Incomplete, WritePiece, OnDisk, VerifiedOn;
    var r := After(c, sha, y, StoreResult);
    var stored := y.coord.results[0];
    var i := stored.index;
    assert Genuine(c, sha, i, stored.data);
    if i in y.ledger.have {
      assert y.ledger.have + {i} == y.ledger.have;
      assert (y.again + [i])[..|y.again|] == y.again;
    } else {
      OwnedBytesAdd(c.layout, y.ledger.have, i, c.layout.pieceCount);
      assert r.again == y.again;
    }
    var n, g := c.layout.pieceCount, r.ledger;
    assert r.coord.pieces == y.coord.pieces && r.coord.results == y.coord.results[1..];
    assert g.completed == |g.have| + |r.again|;
    assert g.bytesOwned == OwnedBytes(c.layout, g.have, n) + SizeOf(c, r.again);
    assert g.complete <==> g.completed >= n;
    forall j | j in Indices(y.coord.results) && j != i ensures j in Indices(r.coord.results) {
      var k :| 0 <= k < |y.coord.results| && y.coord.results[k].index == j;
      assert Indices(r.coord.results)[k - 1] == j;
    }
  }

  /** The laws of the count hold in every reachable state. */
  lemma {:induction false} CountsAreConserved(
    c: Config, sha: Bytes -> Digest, disk: Bytes, trace: seq<Client>, moves: seq<Move>, k: nat)
    requires IsClientRun(c, sha, disk, trace, moves) && k < |trace|
    ensures c.layout.Valid()
    ensures Shape(c, trace[k].coord) && Linked(c, trace[k].coord) && Accounts(c, trace[k])
  {
    hide Next, Accounts, Genuine, Store, Incomplete;
    if k == 0 {
      StartAccounts(c, sha, disk);
    } else {
      var y, m := trace[k - 1], moves[k - 1];
      CountsAreConserved(c, sha, disk, trace, moves, k - 1);
      HadPiecesAreVerified(c, sha, disk, trace, moves, k - 1);
      match m
      case Coordinate(step) =>
        StepKeepsLinked(c, y.coord, step);
        StepAccounts(c, sha, y, step);
      case StoreResult =>
        EnabledResultTaken(c, y.coord);
        StepKeepsLinked(c, y.coord, ResultTaken);
        StoreAccounts(c, sha, y);
    }
  }

  ghost function Elements(s: seq<int>): set<int> { set i | i in s }

  ghost predicate Unrepeated(s: seq<int>) { forall j, k :: 0 <= j < k < |s| ==> s[j] != s[k] }

  lemma {:induction false} UnrepeatedAppend(s: seq<int>, x: int)
    requires Unrepeated(s) && x !in s
    ensures Unrepeated(s + [x])
  {
    assert forall k :: 0 <= k < |s| ==> s[k] in s;
  }

  /** Adding the elements of a list to a set grows it by the list's length only if all of them are new and distinct. */
  lemma {:induction false} Pigeonhole(base: set<int>, s: seq<int>)
    ensures |base + Elements(s)| <= |base| + |s|
    ensures |base + Elements(s)| == |base| + |s| ==> Unrepeated(s) && base !! Elements(s)
  {
    hide Unrepeated, Elements;
    if s == [] {
      NothingRepeats();
      assert base + {} == base;
    } else {
      var init, last := s[..|s| - 1], s[|s| - 1];
      assert s == init + [last];
      ElementsAppend(init, last);
      Pigeonhole(base, init);
      OneMoreElement(base, Elements(init), last);
      if last !in Elements(init) && Unrepeated(init) { UnrepeatedAppend(init, last); }
    }
  }

  lemma {:induction false} OneMoreElement(base: set<int>, elements: set<int>, x: int)
    ensures |base + (elements + {x})| == |base + elements| + if x in base || x in elements then 0 else 1
  {
    assert base + (elements + {x}) == (base + elements) + {x};
    OneInOrOut(base + elements, x);
  }

  lemma {:induction false} ElementsAppend(s: seq<int>, x: int)
    ensures Elements(s + [x]) == Elements(s) + {x} && (x in Elements(s) <==> x in s)
  {
  }

  lemma {:induction false} NothingRepeats()
    ensures Unrepeated([]) && Elements([]) == {}
  {
  }

  ghost function Completed(c: Config, s: State): set<int> { Others(c.layout.pieceCount, Incomplete(s.pieces)) }

  /** Where the complete pieces are: had, waiting to be stored, or dropped. */
  lemma {:induction false} CompletedAreSomewhere(c: Config, y: Client)
    requires Shape(c, y.coord) && c.layout.Valid() && Accounts(c, y)
    ensures Completed(c, y.coord) <= y.ledger.have + Elements(Indices(y.coord.results) + y.dropped)
    ensures |Completed(c, y.coord)| + |Incomplete(y.coord.pieces)| == c.layout.pieceCount
  {
    LastPiece(c.layout);
    SplitSize(c.layout.pieceCount, Incomplete(y.coord.pieces));
    var waiting := Indices(y.coord.results) + y.dropped;
    forall i | i in Completed(c, y.coord) ensures i in y.ledger.have + Elements(waiting) {
      assert i !in Incomplete(y.coord.pieces);
    }
  }

  /** The count exceeds the pieces had by one for each result stored again, and never by more than the number of late
      failures: without a late failure no piece is ever stored twice. */
  lemma {:induction false} RecountsNeedLateFailures(
    c: Config, sha: Bytes -> Digest, disk: Bytes, trace: seq<Client>, moves: seq<Move>, k: nat)
    requires IsClientRun(c, sha, disk, trace, moves) && k < |trace|
    ensures trace[k].ledger.completed == |trace[k].ledger.have| + |trace[k].again|
    ensures |trace[k].again| <= trace[k].late
  {
    hide Next, Incomplete, IsClientRun;
    var y := trace[k];
    CountsAreConserved(c, sha, disk, trace, moves, k);
    CompletedAreSomewhere(c, y);
    var waiting := Indices(y.coord.results) + y.dropped;
    Pigeonhole(y.ledger.have, waiting);
    SubsetSize(Completed(c, y.coord), y.ledger.have + Elements(waiting));
  }

  /** In every state reached without a late failure and before cancellation: each complete piece is either had or
      waiting exactly once, the counters are exactly those of the pieces had, "left" is the length of the others
      and needs no clamp, and the download counts as complete exactly when every byte is on disk and verified. */
  lemma {:induction false} CleanRunsCountExactly(
    c: Config, sha: Bytes -> Digest, disk: Bytes, trace: seq<Client>, moves: seq<Move>, k: nat)
    requires IsClientRun(c, sha, disk, trace, moves) && k < |trace|
    requires trace[k].late == 0 && trace[k].dropped == []
    ensures var y, l := trace[k], c.layout;
      && Unrepeated(Indices(y.coord.results)) && y.ledger.have !! Elements(Indices(y.coord.results))
      && y.ledger.have + Elements(Indices(y.coord.results)) == Completed(c, y.coord)
      && y.ledger.completed == |y.ledger.have|
      && y.ledger.bytesOwned == OwnedBytes(l, y.ledger.have, l.pieceCount)
      && Announced(c, y.ledger) == l.totalLength - y.ledger.bytesOwned
      && Announced(c, y.ledger) == OwnedBytes(l, Others(l.pieceCount, y.ledger.have), l.pieceCount)
      && |y.ledger.disk| == l.totalLength
      && (y.ledger.complete <==> y.ledger.completed == l.pieceCount)
      && (y.ledger.complete <==> y.ledger.bytesOwned == l.totalLength)
      && (y.ledger.complete <==> VerifiedOn(c, sha, y.ledger.disk) == Others(l.pieceCount, {}))
  {
    hide Next, Incomplete, IsClientRun, OnDisk, OwnedBytes;
    var y, n := trace[k], c.layout.pieceCount;
    HadPiecesAreVerified(c, sha, disk, trace, moves, k);
    LastPiece(c.layout);
    CountsAreConserved(c, sha, disk, trace, moves, k);
    RecountsNeedLateFailures(c, sha, disk, trace, moves, k);
    CompletedAreSomewhere(c, y);
    var waiting := Indices(y.coord.results);
    assert waiting + y.dropped == waiting;
    Pigeonhole(y.ledger.have, waiting);
    SubsetSize(Completed(c, y.coord), y.ledger.have + Elements(waiting));
    BytesOfHave(c, y.ledger.have);
    SubsetSize(y.ledger.have, Others(n, {}));
    SplitSize(n, {});
  }

  /** The bytes owned and the bytes left, and when nothing is left. */
  lemma {:induction false} BytesOfHave(c: Config, have: set<int>)
    requires c.layout.Valid() && forall i :: i in have ==> 0 <= i < c.layout.pieceCount
    ensures var l := c.layout;
      && OwnedBytes(l, have, l.pieceCount) + OwnedBytes(l, Others(l.pieceCount, have), l.pieceCount) == l.totalLength
      && OwnedBytes(l, Others(l.pieceCount, have), l.pieceCount) >= 0
      && (OwnedBytes(l, have, l.pieceCount) == l.totalLength <==> |have| == l.pieceCount)
  {
    var l := c.layout;
    LastPiece(l);
    var rest := Others(l.pieceCount, have);
    OwnedBytesComplement(l, have, rest, l.pieceCount);
    OwnedBytesComplement(l, rest, have, l.pieceCount);
    AllBytesMeansAllPieces(l, have);
    SplitSize(l.pieceCount, have);
    if forall i :: 0 <= i < l.pieceCount ==> i in have {
      assert rest == {};
    } else {
      var i :| 0 <= i < l.pieceCount && i !in have;
      assert i in rest;
    }
  }

  /** In every reachable state whose count has reached the number of pieces, the count is right, that is every piece
      checks out on disk, if and only if no result was ever stored for a piece already had. */
  lemma {:induction false} CountIsTruthful(
    c: Config, sha: Bytes -> Digest, disk: Bytes, trace: seq<Client>, moves: seq<Move>, k: nat)
    requires IsClientRun(c, sha, disk, trace, moves) && k < |trace|
    requires trace[k].ledger.completed == c.layout.pieceCount
    ensures |trace[k].ledger.disk| == c.layout.totalLength
    ensures VerifiedOn(c, sha, trace[k].ledger.disk) == Others(c.layout.pieceCount, {}) <==> trace[k].again == []
  {
    hide Next, IsClientRun, OnDisk, OwnedBytes;
    var n := c.layout.pieceCount;
    HadPiecesAreVerified(c, sha, disk, trace, moves, k);
    LastPiece(c.layout);
    RecountsNeedLateFailures(c, sha, disk, trace, moves, k);
    SubsetSize(trace[k].ledger.have, Others(n, {}));
    SplitSize(n, {});
  }

  // ----- how the count goes wrong -----

  lemma {:induction false} AssignedIsInFlight(c: Config, s: State, a: Addr)
    requires Shape(c, s) && Linked(c, s) && a in s.peers && s.peers[a].assignedTo >= 0
    ensures s.pieces[s.peers[a].assignedTo] == InFlight
  {
    assert WorkListed(s, a);
  }

  /** Two peers share a piece in endgame. The winner's download completes it; the loser's failure, on its way before the
      cancel reached it, makes it missing again. */
  lemma {:induction false} EndgameLoserUndoes(c: Config, s: State, winner: Addr, loser: Addr, i: int, data: Bytes)
    requires Shape(c, s) && Linked(c, s) && winner != loser && 0 <= i < c.layout.pieceCount
    requires winner in s.peers && s.peers[winner].assignedTo == i
    requires loser in s.peers && s.peers[loser].assignedTo == i
    ensures var won := AfterPieceDownloaded(c, s, winner, i, data, true);
      && i !in Incomplete(won.pieces) && won.results == s.results + [PieceResult(i, data)]
      && i in Incomplete(AfterPieceFailed(c, won, loser, i).pieces)
  {
    hide AfterPieceFailed, Linked;
    var won := AfterPieceDownloaded(c, s, winner, i, data, true);
    AssignedIsInFlight(c, s, winner);
    Completion.IncompleteAfterStep(c, s, Downloaded(winner, i, data, true));
    StepKeepsLinked(c, s, Downloaded(winner, i, data, true));
    Completion.FailureOfComplete(c, won, loser, i);
  }

  /** From any state with one piece to go, a late failure of a piece already had and its second download make the client
      believe it is complete, while what it has on disk is what it had before. */
  lemma {:induction false} LateFailureCompletesEarly(
    c: Config, sha: Bytes -> Digest, y: Client, loser: Addr, winner: Addr, i: int) returns (early: Client)
    requires Shape(c, y.coord) && Linked(c, y.coord) && Intact(c, sha, y) && Accounts(c, y)
    requires y.coord.results == [] && y.ledger.completed == c.layout.pieceCount - 1
    requires i in y.ledger.have && i !in Incomplete(y.coord.pieces)
    ensures var data := PieceBytes(c.layout, y.ledger.disk, i);
      && 0 <= i < c.layout.pieceCount
      && CanMove(c, sha, y, Coordinate(Failed(loser, i)))
      && (var y1 := After(c, sha, y, Coordinate(Failed(loser, i)));
          && CanMove(c, sha, y1, Coordinate(Downloaded(winner, i, data, true)))
          && (var y2 := After(c, sha, y1, Coordinate(Downloaded(winner, i, data, true)));
              CanMove(c, sha, y2, StoreResult) && early == After(c, sha, y2, StoreResult)))
    ensures early.ledger.complete && early.ledger.have == y.ledger.have
    ensures exists missing :: 0 <= missing < c.layout.pieceCount && missing !in early.ledger.have
  {
    hide Next, Incomplete, OnDisk, OwnedBytes, WritePiece, PieceBytes;
    var data := PieceBytes(c.layout, y.ledger.disk, i);
    assert Genuine(c, sha, i, data) by { GenuineOnDisk(c, sha, y.ledger.disk, i); }
    var fail, win := Failed(loser, i), Downloaded(winner, i, data, true);
    Completion.ResultsAfterStep(c, y.coord, fail);
    Completion.IncompleteAfterStep(c, y.coord, fail);
    StepKeepsLinked(c, y.coord, fail);
    var y1 := After(c, sha, y, Coordinate(fail));
    IndexIncomplete(c, y1.coord, win);
    Completion.ResultsAfterStep(c, y1.coord, win);
    var y2 := After(c, sha, y1, Coordinate(win));
    assert y2.coord.results == [PieceResult(i, data)];
    StoringKeepsIntact(c, sha, y2.ledger, y2.coord.results[0]);
    early := After(c, sha, y2, StoreResult);
    assert y.ledger.have + {i} == y.ledger.have;
    OneIsMissing(c, sha, y);
  }

  lemma {:induction false} OneIsMissing(c: Config, sha: Bytes -> Digest, y: Client)
    requires Intact(c, sha, y) && Shape(c, y.coord) && Accounts(c, y)
    requires y.coord.results == [] && y.ledger.completed == c.layout.pieceCount - 1
    ensures exists missing :: 0 <= missing < c.layout.pieceCount && missing !in y.ledger.have
  {
    hide Incomplete, OwnedBytes, OnDisk;
    LastPiece(c.layout);
    SplitSize(c.layout.pieceCount, y.ledger.have);
    assert Others(c.layout.pieceCount, y.ledger.have) != {};
    var missing :| missing in Others(c.layout.pieceCount, y.ledger.have);
  }

  lemma {:induction false} GenuineOnDisk(c: Config, sha: Bytes -> Digest, disk: Bytes, i: int)
    requires c.layout.Valid() && |disk| == c.layout.totalLength && i in VerifiedOn(c, sha, disk)
    ensures Genuine(c, sha, i, PieceBytes(c.layout, disk, i))
  {
  }
}
