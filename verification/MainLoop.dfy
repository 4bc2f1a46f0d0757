/** The download's main goroutine as the source writes it: it resumes from disk, takes finished pieces off the result
    channel, and owns the file, the have bitfield and the counters. */
module MainLoop {
  import opened Base
  import opened Bitfield
  import opened Events
  import opened Geometry
  import opened Storage
  import opened CoordinatorState
  import opened Pipeline
  import Coordinator

  /** What resuming has done after looking at the pieces below upto. */
  ghost function PiecesBelow(have: set<int>, upto: int): set<int> { set i | i in have && i < upto }

  lemma {:induction false} OneMorePiece(c: Config, have: set<int>, i: int)
    requires c.layout.Valid() && 0 <= i < c.layout.pieceCount
    requires forall j :: j in have ==> 0 <= j < c.layout.pieceCount
    ensures var before, after := PiecesBelow(have, i), PiecesBelow(have, i + 1);
      && after == before + (if i in have then {i} else {})
      && |after| == |before| + (if i in have then 1 else 0)
      && OwnedBytes(c.layout, after, c.layout.pieceCount) ==
           OwnedBytes(c.layout, before, c.layout.pieceCount) + (if i in have then c.layout.Size(i) else 0)
      && MarkAll(c, after) ==
           if i in have then CoordinatorState.MarkComplete(c, MarkAll(c, before), i) else MarkAll(c, before)
  {
    LastPiece(c.layout);
    var before, after := PiecesBelow(have, i), PiecesBelow(have, i + 1);
    assert after == before + (if i in have then {i} else {});
    if i in have { OwnedBytesAdd(c.layout, before, i, c.layout.pieceCount); }
  }

  lemma {:induction false} NothingMarkedYet(c: Config, have: set<int>)
    requires c.layout.Valid() && forall j :: j in have ==> 0 <= j < c.layout.pieceCount
    ensures PiecesBelow(have, 0) == {} && PiecesBelow(have, c.layout.pieceCount) == have
    ensures OwnedBytes(c.layout, {}, c.layout.pieceCount) == 0 && MarkAll(c, {}) == Initial(c)
  {
    LastPiece(c.layout);
    NothingOwned(c.layout, {}, c.layout.pieceCount);
    assert MarkAll(c, {}).pieces == Initial(c).pieces;
  }

  /** Marks the pieces that check out and adds them up. */
  method MarkVerified(
    config: Config, verified: seq<bool>, ghost good: set<int>, bits: HaveBitfield, coord: Coordinator.Coordinator)
    returns (done: int, owned: int)
    requires config.layout.Valid() && |verified| == config.layout.pieceCount
    requires forall i :: i in good <==> 0 <= i < |verified| && verified[i]
    requires Sized(bits.bf[..], |verified|) && bits.Pieces() == {}
    requires coord.Valid() && coord.config == config && coord.View() == Initial(config)
    modifies bits.bf, coord
    ensures Sized(bits.bf[..], |verified|) && bits.Pieces() == good && done == |good|
    ensures owned == OwnedBytes(config.layout, good, config.layout.pieceCount)
    ensures coord.Valid() && coord.config == config && coord.View() == MarkAll(config, good)
  {
    hide OwnedBytes, MarkAll, Marked, PiecesBelow;
    done, owned := 0, 0;
    NothingMarkedYet(config, good);
    for i := 0 to |verified|
      invariant Sized(bits.bf[..], |verified|)
      invariant bits.Pieces() == PiecesBelow(good, i) && done == |PiecesBelow(good, i)|
      invariant owned == OwnedBytes(config.layout, PiecesBelow(good, i), config.layout.pieceCount)
      invariant coord.Valid() && coord.config == config && coord.View() == MarkAll(config, PiecesBelow(good, i))
    {
      OneMorePiece(config, good, i);
      if verified[i] {
        var length := config.layout.Length(i);
        coord.MarkComplete(i);
        bits.Set(i);
        done := done + 1;
        owned := owned + length.value;
      }
    }
  }

  class Download {
    const config: Config
    const file: File
    const have: HaveBitfield
    const coordinator: Coordinator.Coordinator
    var completed: int
    var bytesOwned: int
    var complete: bool

    ghost function View(): Ledger
      reads this, file, have, have.bf
    {
      Ledger(file.content, have.Pieces(), completed, bytesOwned, complete)
    }

    ghost predicate Valid()
      reads this, have.bf
    {
      config.layout.Valid() && Sized(have.bf[..], config.layout.pieceCount)
    }

    /** Gives the file its size, scans it, and marks every piece that checks out as done. */
    constructor (config: Config, sha: Bytes -> Digest, existing: Option<Bytes>)
      requires config.layout.Valid()
      ensures Valid() && this.config == config && fresh(file) && fresh(have) && fresh(have.bf) && fresh(coordinator)
      ensures View() ==
        Resumed(config, sha, Truncate(if existing.Some? then existing.value else [], config.layout.totalLength))
      ensures coordinator.Valid() && coordinator.View() == MarkAll(config, View().have)
    {
      LastPiece(config.layout);
      var n := config.layout.pieceCount;
      this.config := config;
      var output := new File.Create(existing, config.layout.totalLength);
      var verified := VerifyExisting(sha, Some(output.content), config.layout, config.hashes);
      ghost var good := VerifiedOn(config, sha, output.content);
      forall i | 0 <= i < n ensures verified[i] <==> i in good {
        ScannedIsOnDisk(sha, config.layout, config.hashes, output.content, i);
      }
      var bits := new HaveBitfield(n);
      var coord := new Coordinator.Coordinator(config);
      var done, owned := MarkVerified(config, verified, good, bits, coord);
      file, have, coordinator := output, bits, coord;
      completed, bytesOwned, complete := done, owned, done == n;
    }

    /** A finished piece: written, marked, counted; a failed write ends the download. */
    method OnResult(result: PieceResult) returns (error: Option<StorageError>)
      requires Valid()
      modifies this, file, have.bf
      ensures Valid() && match Store(config, old(View()), result)
        case Ok(after) => error == None && View() == after
        case Err(e) => error == Some(e) && View() == old(View())
    {
      error := file.Write(config.layout, result.index, result.data);
      if error.Some? { return; }
      have.Set(result.index);
      completed := completed + 1;
      bytesOwned := bytesOwned + |result.data|;
      if completed == config.layout.pieceCount && !complete {
        complete := true;
      }
    }

    /** What is announced to the tracker as still missing. */
    method LeftToDownload() returns (left: int)
      requires Valid()
      ensures left == Announced(config, View())
    {
      left := config.layout.totalLength - bytesOwned;
      if left < 0 { left := 0; }
    }
  }
}
