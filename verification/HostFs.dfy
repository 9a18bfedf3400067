/**
 File I/O over the exchange protocol (reference/host_driver.c): blocks, a residual, and whatever the host makes
 of them.
 */
module HostFs {
  import opened Bytes
  import opened Options

  /** The largest piece of a file moved by one exchange; any positive number. */
  const HOSTFS_MAX_BLOCK: Positive

  /**
   What becomes of one exchange: the PC is not connected; the exchange breaks after the host has moved some bytes
   of its file, of which a reader may have got fewer, or after it has carried out a seek (`moved` is not zero);
   or the host reports a result: a count, which may be short, or an error.
   */
  datatype Answer = Offline | Breaks(moved: nat, arrived: nat) | Reports(res: int)

  /** The bytes an exchange of `size` moves; a host never moves more than asked, nor more than it has. */
  function Movement(a: Answer, size: nat, avail: nat): (k: nat)
    ensures k <= size && k <= avail
  {
    match a
    case Offline => 0
    case Breaks(moved, _) => Min(moved, Min(size, avail))
    case Reports(res) => if res <= 0 then 0 else Min(res, Min(size, avail))
  }

  /** The bytes a reader has got when the exchange is over. */
  function Arrival(a: Answer, size: nat, avail: nat): (k: nat)
    ensures k <= Movement(a, size, avail)
  {
    if a.Breaks? then Min(a.arrived, Movement(a, size, avail)) else Movement(a, size, avail)
  }

  /** The `res` field of the response: the count that was moved, or zero or an error. */
  function Result(a: Answer, size: nat, avail: nat): (res: int)
    requires a.Reports?
    ensures res > 0 <==> Movement(a, size, avail) > 0
  {
    if a.res <= 0 then a.res else Movement(a, size, avail)
  }

  /** The result, how far the host has moved, and how much of that a reader has got. */
  datatype Outcome = Outcome(ret: int, moved: nat, arrived: nat, rest: seq<Answer>)

  function Head(script: seq<Answer>): Answer {
    if script == [] then Offline else script[0]
  }

  function Tail(script: seq<Answer>): seq<Answer> {
    if script == [] then [] else script[1..]
  }

  /** How a length is split: full blocks, then what is left. */
  function Pieces(blocks: nat, residual: nat): seq<nat> {
    if blocks > 0 then [HOSTFS_MAX_BLOCK] + Pieces(blocks - 1, residual)
    else if residual > 0 then [residual]
    else []
  }

  function Sum(sizes: seq<nat>): nat {
    if sizes == [] then 0 else sizes[0] + Sum(sizes[1..])
  }

  function PiecesOf(len: nat): seq<nat> {
    Pieces(len / HOSTFS_MAX_BLOCK, len % HOSTFS_MAX_BLOCK)
  }

  /** Nothing empty and nothing larger than a block. */
  predicate Blocks(sizes: seq<nat>) {
    forall k :: 0 <= k < |sizes| ==> 0 < sizes[k] <= HOSTFS_MAX_BLOCK
  }

  lemma {:induction false} PiecesAddUp(blocks: nat, residual: nat)
    ensures Sum(Pieces(blocks, residual)) == blocks * HOSTFS_MAX_BLOCK + residual
    ensures residual < HOSTFS_MAX_BLOCK ==> Blocks(Pieces(blocks, residual))
  {
    if blocks > 0 {
      PiecesAddUp(blocks - 1, residual);
      assert blocks * HOSTFS_MAX_BLOCK == (blocks - 1) * HOSTFS_MAX_BLOCK + HOSTFS_MAX_BLOCK;
    }
  }

  /** Nothing is lost in the split. */
  lemma PiecesOfLength(len: nat)
    ensures Sum(PiecesOf(len)) == len && Blocks(PiecesOf(len))
  {
    PiecesAddUp(len / HOSTFS_MAX_BLOCK, len % HOSTFS_MAX_BLOCK);
  }

  /** What an exchange means for the result: go on, stop with what there is, or fail. */
  datatype Verdict = Verdict(goOn: bool, ret: int)

  function Judge(a: Answer, moved: nat, done: nat): Verdict {
    if !a.Reports? then Verdict(false, -1)
    else if moved > 0 then Verdict(true, done + moved)
    else Verdict(false, if a.res < 0 && done == 0 then a.res else done)
  }

  /**
   A transfer of pieces, after `done` bytes: a short count goes on with the next piece right behind the last
   byte moved, an end or an error stops, a broken exchange makes the result -1.
   */
  function Drive(script: seq<Answer>, sizes: seq<nat>, avail: nat, done: nat): Outcome
    decreases |sizes|
  {
    if sizes == [] then Outcome(done, 0, 0, script)
    else
      var k := Movement(Head(script), sizes[0], avail);
      var v := Judge(Head(script), k, done);
      if v.goOn then
        var o := Drive(Tail(script), sizes[1..], avail - k, done + k);
        Outcome(o.ret, k + o.moved, k + o.arrived, o.rest)
      else Outcome(v.ret, k, Arrival(Head(script), sizes[0], avail), Tail(script))
  }

  /**
   No more is moved than asked for or there, and no more arrives than was moved; a result that is not negative is
   what was moved, and all of it arrived; a host error other than -1 is passed on only when nothing was moved.
   */
  lemma {:induction false} DriveFacts(script: seq<Answer>, sizes: seq<nat>, avail: nat, done: nat)
    ensures var o := Drive(script, sizes, avail, done);
            && o.arrived <= o.moved <= avail && o.moved <= Sum(sizes)
            && (o.ret >= 0 ==> o.ret == done + o.moved && o.arrived == o.moved)
            && (o.ret < -1 ==> done + o.moved == 0)
    decreases |sizes|
  {
    if sizes != [] {
      var k := Movement(Head(script), sizes[0], avail);
      DriveFacts(Tail(script), sizes[1..], avail - k, done + k);
    }
  }

  /**
   What the next exchange of a transfer under way means: without a connection, or when it breaks, the result is -1;
   nothing more, or an error behind some progress, ends with the progress; an error at once is the result itself; a
   count goes on with the next piece.
   */
  lemma NextAnswerDecides(script: seq<Answer>, sizes: seq<nat>, avail: nat, done: nat)
    requires sizes != [] && script != []
    ensures var o := Drive(script, sizes, avail, done);
            match script[0]
            case Offline => o == Outcome(-1, 0, 0, script[1..])
            case Breaks(moved, arrived) =>
              var k := Min(moved, Min(sizes[0], avail));
              o == Outcome(-1, k, Min(arrived, k), script[1..])
            case Reports(res) =>
              var k := Min(res, Min(sizes[0], avail));
              if res < 0 && done == 0 then o == Outcome(res, 0, 0, script[1..])
              else if k <= 0 then o == Outcome(done, 0, 0, script[1..])
              else
                var p := Drive(script[1..], sizes[1..], avail - k, done + k);
                o == Outcome(p.ret, k + p.moved, k + p.arrived, p.rest)
  {
  }

  /** The transfer of `len` bytes as the driver splits it. */
  function Split(script: seq<Answer>, len: nat, avail: nat): (o: Outcome)
    ensures o.arrived <= o.moved <= len && o.moved <= avail
    ensures o.ret >= 0 ==> o.ret == o.moved == o.arrived
    ensures o.ret < -1 ==> o.moved == 0
  {
    PiecesOfLength(len);
    DriveFacts(script, PiecesOf(len), avail, 0);
    Drive(script, PiecesOf(len), avail, 0)
  }

  // ----- the host's file -----

  datatype Host = Host(contents: seq<byte>, pos: nat, script: seq<Answer>)

  /** Contents after writing `bytes` at `pos`; a gap reads as zeros. */
  function Overwrite(contents: seq<byte>, pos: nat, bytes: seq<byte>): seq<byte> {
    if bytes == [] then contents
    else
      var before := if pos <= |contents| then contents[..pos] else contents + Zeros(pos - |contents|);
      before + bytes + (if pos + |bytes| <= |contents| then contents[pos + |bytes|..] else [])
  }

  /** What is left to read from `pos`. */
  function Ahead(contents: seq<byte>, pos: nat): seq<byte> {
    if pos <= |contents| then contents[pos..] else []
  }

  class Driver {
    /** The file on the PC, its position, and how the coming exchanges will go. */
    var contents: seq<byte>
    var pos: nat
    var script: seq<Answer>

    ghost function State(): Host
      reads this
    {
      Host(contents, pos, script)
    }

    constructor (contents: seq<byte>, script: seq<Answer>)
      ensures State() == Host(contents, 0, script)
    {
      this.contents, pos, this.script := contents, 0, script;
    }

    /** The host has taken the first `at` bytes of the data and nothing else since `from`. */
    ghost predicate Took(from: Host, data: seq<byte>, at: nat)
      reads this
    {
      at <= |data| && pos == from.pos + at && contents == Overwrite(from.contents, from.pos, data[..at])
    }

    /** One WRITE exchange of the next `size` bytes and what the driver makes of the response. */
    method WriteBlock(data: seq<byte>, at: nat, size: nat, ghost from: Host) returns (v: Verdict)
      requires at + size <= |data| && Took(from, data, at)
      modifies this
      ensures var k := Movement(Head(old(script)), size, size);
              v == Judge(Head(old(script)), k, at) && script == Tail(old(script)) && Took(from, data, at + k)
    {
      var a := if script == [] then Offline else script[0];
      script := if script == [] then [] else script[1..];
      TakeAhead(data, at, Movement(a, size, size), from);
      if a.Reports? {
        var res := Result(a, size, size);
        if res > 0 {
          return Verdict(true, at + res);
        }
        return Verdict(false, if res < 0 && at == 0 then res else at);
      }
      return Verdict(false, -1);
    }

    /** The host's part of a WRITE exchange: it takes the next `moved` bytes. */
    method TakeAhead(data: seq<byte>, at: nat, moved: nat, ghost from: Host)
      requires at + moved <= |data| && Took(from, data, at)
      modifies this`contents, this`pos
      ensures Took(from, data, at + moved)
    {
      AppendWrite(from.contents, from.pos, data, at, moved);
      contents := Overwrite(contents, pos, data[at..at + moved]);
      pos := pos + moved;
    }

    /**
     `usb_write_data`: what the host has taken is always a beginning of the data, written without gap or
     repeat from the old position on, and the result is its length unless an exchange broke or the very
     first one reported an error.
     */
    method WriteData(data: Option<seq<byte>>, len: int) returns (ret: int)
      requires data.Some? ==> len <= |data.value|
      modifies this
      ensures len == 0 ==> ret == 0
      ensures len < 0 || (len > 0 && data.None?) ==> ret == -1
      ensures len <= 0 || data.None? ==> State() == old(State())
      ensures len > 0 && data.Some? ==>
                var o := Split(old(script), len, len);
                ret == o.ret && script == o.rest && Took(old(State()), data.value, o.moved)
    {
      if len < 0 {
        return -1;
      }
      if len == 0 {
        return 0;
      }
      if data.None? {
        return -1;
      }
      PiecesOfLength(len);
      ret := WriteAll(data.value, len, len / HOSTFS_MAX_BLOCK, len % HOSTFS_MAX_BLOCK);
    }

    /** The write `all` is under way: `at` bytes are with the host, `sizes` are still to come. */
    ghost predicate Writing(all: Outcome, from: Host, data: seq<byte>, len: nat, sizes: seq<nat>, at: nat)
      reads this
    {
      at + Sum(sizes) <= len <= |data| && Took(from, data, at) && Continues(all, at, Drive(script, sizes, len - at, at))
    }

    /** Writes the next piece of `sizes`: either the transfer goes on behind it or this was its end. */
    method WriteNext(data: seq<byte>, len: nat, size: nat, at: nat, ghost all: Outcome, ghost sizes: seq<nat>,
                     ghost from: Host)
      returns (v: Verdict)
      requires sizes != [] && sizes[0] == size && Writing(all, from, data, len, sizes, at)
      modifies this
      ensures v.goOn ==> v.ret >= 0 && Writing(all, from, data, len, sizes[1..], v.ret)
      ensures !v.goOn ==> all.ret == v.ret && all.rest == script && Took(from, data, all.moved)
    {
      assert Movement(Head(script), size, len - at) == Movement(Head(script), size, size);
      v := WriteBlock(data, at, size, from);
    }

    /** The block loop and the residual. */
    method WriteAll(data: seq<byte>, len: nat, blocks0: nat, residual: nat) returns (ret: int)
      requires Sum(Pieces(blocks0, residual)) == len <= |data|
      modifies this
      ensures var o := Drive(old(script), Pieces(blocks0, residual), len, 0);
              ret == o.ret && script == o.rest && Took(old(State()), data, o.moved)
    {
      var blocks := blocks0;
      ghost var from := State();
      ret := 0;
      ghost var sizes := Pieces(blocks, residual);
      ghost var all := Drive(script, sizes, len, 0);
      assert data[..0] == [];
      while blocks > 0
        invariant ret >= 0 && sizes == Pieces(blocks, residual) && Writing(all, from, data, len, sizes, ret)
      {
        var v := WriteNext(data, len, HOSTFS_MAX_BLOCK, ret, all, sizes, from);
        if !v.goOn {
          return v.ret;
        }
        ret, blocks, sizes := v.ret, blocks - 1, sizes[1..];
      }
      ret := WriteResidual(data, len, residual, ret, all, from);
    }

    /** What is left after the full blocks. */
    method WriteResidual(data: seq<byte>, len: nat, residual: nat, at: nat, ghost all: Outcome, ghost from: Host)
      returns (ret: int)
      requires Writing(all, from, data, len, Pieces(0, residual), at)
      modifies this
      ensures ret == all.ret && script == all.rest && Took(from, data, all.moved)
    {
      if residual > 0 {
        assert Pieces(0, residual) == [residual] && [residual][1..] == [];
        var v := WriteNext(data, len, residual, at, all, Pieces(0, residual), from);
        return v.ret;
      }
      return at;
    }

    /**
     The host has moved `moved` bytes on from `from`; the buffer holds the first `arrived` of them, and its old
     bytes behind.
     */
    ghost predicate Gave(from: Host, data: array<byte>, before: seq<byte>, moved: nat, arrived: nat)
      reads this, data
    {
      var ahead := Ahead(from.contents, from.pos);
      && |before| == data.Length && arrived <= moved <= |ahead| && pos == from.pos + moved && contents == from.contents
      && (forall k :: 0 <= k < arrived && k < data.Length ==> data[k] == ahead[k])
      && (forall k :: arrived <= k < data.Length ==> data[k] == before[k])
    }

    /** One READ exchange into `data` at `at`, and what the driver makes of the response. */
    method ReadBlock(data: array<byte>, at: nat, size: nat, ghost from: Host, ghost before: seq<byte>)
      returns (v: Verdict)
      requires at + size <= data.Length && Gave(from, data, before, at, at)
      modifies this, data
      ensures var avail := |Ahead(from.contents, from.pos)| - at;
              var k := Movement(Head(old(script)), size, avail);
              && v == Judge(Head(old(script)), k, at) && script == Tail(old(script))
              && Gave(from, data, before, at + k, at + Arrival(Head(old(script)), size, avail))
    {
      var a := if script == [] then Offline else script[0];
      script := if script == [] then [] else script[1..];
      AheadAt(contents, from.pos, at);
      var avail := |Ahead(contents, pos)|;
      CopyAhead(data, at, Movement(a, size, avail), Arrival(a, size, avail), from, before);
      if a.Reports? {
        var res := Result(a, size, avail);
        if res > 0 {
          return Verdict(true, at + res);
        }
        return Verdict(false, if res < 0 && at == 0 then res else at);
      }
      return Verdict(false, -1);
    }

    /**
     The host's part of a READ exchange: it reads `moved` bytes from its position, and `arrived` get into the
     buffer.
     */
    method CopyAhead(data: array<byte>, at: nat, moved: nat, arrived: nat, ghost from: Host, ghost before: seq<byte>)
      requires arrived <= moved <= |Ahead(contents, pos)| && at + arrived <= data.Length
               && Gave(from, data, before, at, at)
      modifies this`pos, data
      ensures Gave(from, data, before, at + moved, at + arrived)
    {
      AheadAt(contents, from.pos, at);
      var ahead := Ahead(contents, pos);
      forall i | 0 <= i < arrived {
        data[at + i] := ahead[i];
      }
      assert forall i :: at <= i < at + arrived ==> data[i] == ahead[i - at];
      pos := pos + moved;
    }

    /**
     `usb_read_data`: the buffer receives the next bytes of the file without gap or repeat, and the result
     is how many, unless an exchange broke or the very first one reported an error. After a broken exchange the
     host may have read further than the bytes that arrived.
     */
    method ReadData(data: array?<byte>, len: int) returns (ret: int)
      requires data != null ==> len <= data.Length
      modifies this, data
      ensures len == 0 ==> ret == 0
      ensures len < 0 || (len > 0 && data == null) ==> ret == -1
      ensures len <= 0 || data == null ==> State() == old(State())
      ensures len > 0 && data != null ==>
                var o := Split(old(script), len, |Ahead(old(contents), old(pos))|);
                ret == o.ret && script == o.rest && Gave(old(State()), data, old(data[..]), o.moved, o.arrived)
    {
      if len < 0 {
        return -1;
      }
      if len == 0 {
        return 0;
      }
      if data == null {
        return -1;
      }
      PiecesOfLength(len);
      ret := ReadAll(data, len / HOSTFS_MAX_BLOCK, len % HOSTFS_MAX_BLOCK);
    }

    /** The read `all` is under way: `at` bytes are in the buffer, `sizes` are still to come. */
    ghost predicate Reading(all: Outcome, from: Host, data: array<byte>, before: seq<byte>, sizes: seq<nat>, at: nat)
      reads this, data
    {
      at + Sum(sizes) <= data.Length && Gave(from, data, before, at, at)
      && Continues(all, at, Drive(script, sizes, |Ahead(from.contents, from.pos)| - at, at))
    }

    /** Reads the next piece of `sizes`: either the transfer goes on behind it or this was its end. */
    method ReadNext(data: array<byte>, size: nat, at: nat,
                    ghost all: Outcome, ghost sizes: seq<nat>, ghost from: Host, ghost before: seq<byte>)
      returns (v: Verdict)
      requires sizes != [] && sizes[0] == size && Reading(all, from, data, before, sizes, at)
      modifies this, data
      ensures v.goOn ==> v.ret >= 0 && Reading(all, from, data, before, sizes[1..], v.ret)
      ensures !v.goOn ==> all.ret == v.ret && all.rest == script && Gave(from, data, before, all.moved, all.arrived)
    {
      v := ReadBlock(data, at, size, from, before);
    }

    /** The block loop and the residual. */
    method ReadAll(data: array<byte>, blocks0: nat, residual: nat) returns (ret: int)
      requires Sum(Pieces(blocks0, residual)) <= data.Length
      modifies this, data
      ensures var o := Drive(old(script), Pieces(blocks0, residual), |Ahead(old(contents), old(pos))|, 0);
              ret == o.ret && script == o.rest && Gave(old(State()), data, old(data[..]), o.moved, o.arrived)
    {
      var blocks := blocks0;
      ret := 0;
      ghost var sizes := Pieces(blocks, residual);
      ghost var from, before, n := State(), data[..], |Ahead(contents, pos)|;
      ghost var all := Drive(script, sizes, n, 0);
      while blocks > 0
        invariant ret >= 0 && sizes == Pieces(blocks, residual) && Reading(all, from, data, before, sizes, ret)
      {
        var v := ReadNext(data, HOSTFS_MAX_BLOCK, ret, all, sizes, from, before);
        if !v.goOn {
          return v.ret;
        }
        ret, blocks, sizes := v.ret, blocks - 1, sizes[1..];
      }
      ret := ReadResidual(data, residual, ret, all, from, before);
    }

    /** What is left after the full blocks. */
    method ReadResidual(data: array<byte>, residual: nat, at: nat, ghost all: Outcome, ghost from: Host,
                        ghost before: seq<byte>)
      returns (ret: int)
      requires Reading(all, from, data, before, Pieces(0, residual), at)
      modifies this, data
      ensures ret == all.ret && script == all.rest && Gave(from, data, before, all.moved, all.arrived)
    {
      if residual > 0 {
        assert Pieces(0, residual) == [residual] && [residual][1..] == [];
        var v := ReadNext(data, residual, at, all, Pieces(0, residual), from, before);
        return v.ret;
      }
      return at;
    }

    /**
     `io_lseek`: the new position as the host reports it, or -1: from the start, from here or from the end, and never
     before the start. After -1 the host is where it was, unless the exchange broke once the host had moved.
     */
    method Seek(ofs: int, whence: int) returns (ret: int)
      modifies this
      ensures Head(old(script)).Reports? && Head(old(script)).res >= 0 ==>
                && (whence == 0 && ofs >= 0 ==> ret == ofs)
                && (whence == 1 && old(pos) + ofs >= 0 ==> ret == old(pos) + ofs)
                && (whence == 2 && |old(contents)| + ofs >= 0 ==> ret == |old(contents)| + ofs)
      ensures var a := Head(old(script));
              var target := Target(old(State()), ofs, whence);
              && script == Tail(old(script)) && contents == old(contents)
              && ret == (if a.Reports? && a.res >= 0 && target.Some? then target.value else -1)
              && (ret >= 0 ==> pos == ret)
              && (ret < 0 ==> pos == if a.Breaks? && a.moved > 0 && target.Some? then target.value else old(pos))
    {
      var a := if script == [] then Offline else script[0];
      var target := Target(Host(contents, pos, []), ofs, whence);
      script := if script == [] then [] else script[1..];
      ret := -1;
      if a.Reports? {
        if a.res >= 0 && target.Some? {
          pos := target.value;
          ret := target.value;
        }
      } else if a.Breaks? && a.moved > 0 && target.Some? {
        pos := target.value;
      }
    }
  }

  /** Where a seek leads; nowhere before the start of the file. */
  function Target(h: Host, ofs: int, whence: int): Option<nat> {
    var base := if whence == 0 then 0 else if whence == 1 then h.pos else |h.contents|;
    if 0 <= whence <= 2 && base + ofs >= 0 then Some(base + ofs) else None
  }

  /** `part` is how the transfer `all` goes on after its first `done` bytes. */
  predicate Continues(all: Outcome, done: nat, part: Outcome) {
    all == Outcome(part.ret, done + part.moved, done + part.arrived, part.rest)
  }

  /** Writing a piece right behind the last one is writing both at once. */
  lemma AppendWrite(contents: seq<byte>, pos: nat, data: seq<byte>, at: nat, moved: nat)
    requires at + moved <= |data|
    ensures Overwrite(Overwrite(contents, pos, data[..at]), pos + at, data[at..at + moved])
            == Overwrite(contents, pos, data[..at + moved])
  {
    assert data[..at + moved] == data[..at] + data[at..at + moved];
    if at > 0 && moved > 0 {
      AppendPieces(contents, pos, data[..at], data[at..at + moved]);
    }
  }

  lemma AppendPieces(contents: seq<byte>, pos: nat, first: seq<byte>, second: seq<byte>)
    requires first != [] && second != []
    ensures Overwrite(Overwrite(contents, pos, first), pos + |first|, second)
            == Overwrite(contents, pos, first + second)
  {
    var head := (if pos <= |contents| then contents[..pos] else contents + Zeros(pos - |contents|)) + first;
    var tail := if pos + |first| <= |contents| then contents[pos + |first|..] else [];
    assert |head| == pos + |first|;
    OverwriteBehind(head, tail, second);
    assert head + second + (if |second| <= |tail| then tail[|second|..] else [])
           == Overwrite(contents, pos, first + second);
  }

  lemma OverwriteBehind(head: seq<byte>, tail: seq<byte>, bytes: seq<byte>)
    requires bytes != []
    ensures Overwrite(head + tail, |head|, bytes)
            == head + bytes + (if |bytes| <= |tail| then tail[|bytes|..] else [])
  {
    assert (head + tail)[..|head|] == head;
    if |bytes| <= |tail| {
      assert (head + tail)[|head| + |bytes|..] == tail[|bytes|..];
    }
  }

  lemma AheadAt(contents: seq<byte>, pos: nat, at: nat)
    requires at <= |Ahead(contents, pos)|
    ensures Ahead(contents, pos + at) == Ahead(contents, pos)[at..]
  {
  }

  // ----- full transfers -----

  /** The host moves everything it is asked for, `n` exchanges long. */
  ghost predicate Generous(script: seq<Answer>, n: nat) {
    |script| >= n && forall k :: 0 <= k < n ==> script[k].Reports? && script[k].res >= HOSTFS_MAX_BLOCK
  }

  function Exchanges(len: nat): nat {
    |PiecesOf(len)|
  }

  lemma MovesInFull(script: seq<Answer>, size: nat, avail: nat, done: nat)
    requires Generous(script, 1) && 0 < size <= HOSTFS_MAX_BLOCK && size <= avail
    ensures Movement(Head(script), size, avail) == size
    ensures Judge(Head(script), size, done) == Verdict(true, done + size)
  {
    assert script[0].Reports?;
  }

  lemma GoesOn(script: seq<Answer>, sizes: seq<nat>, avail: nat, done: nat, k: nat)
    requires script != [] && sizes != [] && k <= avail && Movement(Head(script), sizes[0], avail) == k
    requires Judge(Head(script), k, done) == Verdict(true, done + k)
    ensures var o := Drive(script[1..], sizes[1..], avail - k, done + k);
            Drive(script, sizes, avail, done) == Outcome(o.ret, k + o.moved, k + o.arrived, o.rest)
  {
  }

  lemma StaysGenerous(script: seq<Answer>, sizes: seq<nat>)
    requires Generous(script, |sizes|) && Blocks(sizes) && sizes != []
    ensures Generous(script, 1) && Generous(script[1..], |sizes[1..]|) && Blocks(sizes[1..])
    ensures script[1..][|sizes[1..]|..] == script[|sizes|..]
  {
  }

  lemma {:induction false} DriveInFull(script: seq<Answer>, sizes: seq<nat>, avail: nat, done: nat)
    requires Generous(script, |sizes|) && Sum(sizes) <= avail && Blocks(sizes)
    ensures Drive(script, sizes, avail, done) == Outcome(done + Sum(sizes), Sum(sizes), Sum(sizes), script[|sizes|..])
    decreases |sizes|
  {
    if sizes != [] {
      StaysGenerous(script, sizes);
      MovesInFull(script, sizes[0], avail, done);
      GoesOn(script, sizes, avail, done, sizes[0]);
      DriveInFull(script[1..], sizes[1..], avail - sizes[0], done + sizes[0]);
    }
  }

  lemma SplitInFull(script: seq<Answer>, len: nat, avail: nat)
    requires Generous(script, Exchanges(len)) && len <= avail
    ensures Split(script, len, avail) == Outcome(len, len, len, script[Exchanges(len)..])
  {
    PiecesOfLength(len);
    DriveInFull(script, PiecesOf(len), avail, 0);
  }

  lemma OverwriteThenRead(contents: seq<byte>, pos: nat, bytes: seq<byte>)
    requires bytes != []
    ensures var after := Overwrite(contents, pos, bytes);
            |Ahead(after, pos)| >= |bytes| && Ahead(after, pos)[..|bytes|] == bytes
  {
  }

  /** A full write and a seek back to where it began. */
  method WriteThenSeek(driver: Driver, data: seq<byte>)
    requires data != [] && Generous(driver.script, Exchanges(|data|) + 1)
    modifies driver
    ensures driver.contents == Overwrite(old(driver.contents), old(driver.pos), data) && driver.pos == old(driver.pos)
    ensures driver.script == old(driver.script)[Exchanges(|data|) + 1..]
  {
    var start := driver.pos;
    ghost var n := Exchanges(|data|);
    ghost var script := driver.script;
    SplitInFull(script, |data|, |data|);
    var wrote := driver.WriteData(Some(data), |data|);
    assert data[..|data|] == data && wrote == |data|;
    assert driver.script == script[n..] && driver.script[0] == script[n];
    var at := driver.Seek(start, 0);
    assert script[n..][1..] == script[n + 1..];
  }

  /** With full transfers, writing, seeking back and reading gives the same bytes, for every length and position. */
  method WriteSeekRead(driver: Driver, data: seq<byte>, back: array<byte>)
    requires 0 < |data| == back.Length
    requires Generous(driver.script, Exchanges(|data|) + 1 + Exchanges(|data|))
    modifies driver, back
    ensures back[..] == data
    ensures driver.contents == Overwrite(old(driver.contents), old(driver.pos), data)
    ensures driver.pos == old(driver.pos) + |data|
  {
    WriteThenSeek(driver, data);
    OverwriteThenRead(old(driver.contents), driver.pos, data);
    ghost var ahead := Ahead(driver.contents, driver.pos);
    SplitInFull(driver.script, |data|, |ahead|);
    var read := driver.ReadData(back, |data|);
    assert forall k :: 0 <= k < |data| ==> back[k] == ahead[..|data|][k];
  }
}
