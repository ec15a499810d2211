/** Messages on the wire: 32-bit fields in network byte order, one after another. */
module Wire {
  const WORD: int := 0x1_0000_0000
  const HALF: int := 0x8000_0000

  newtype byte = x: int | 0 <= x < 256
  type u32 = x: int | 0 <= x < WORD witness 0
  type i32 = x: int | -HALF <= x < HALF witness 0

  const STRLEN: nat := 64
  const CLOCKS: nat := 10
  const ELECTION_CLOCKS: nat := 9

  datatype Clock = Clock(nodeId: u32, time: u32)

  /** Between a worker and the transaction manager. */
  datatype WorkerMsg = WorkerMsg(msgID: u32, tid: u32, nodeId: u32, isCrash: u32, clock: seq<Clock>)

  /** From the command program; `text` is the storage that newID and hostName share. */
  datatype CommandMsg = CommandMsg(msgID: u32, tid: u32, port: u32, newValue: i32, delay: i32, text: seq<byte>)

  /** Between the nodes of the election over UDP. */
  datatype ElectionMsg = ElectionMsg(msgID: u32, electionID: u32, clock: seq<Clock>)

  // ---------- words ----------

  function Word(v: u32): seq<byte> {
    [(v / 256 / 256 / 256) as byte, (v / 256 / 256 % 256) as byte, (v / 256 % 256) as byte, (v % 256) as byte]
  }

  function Value(b: seq<byte>): u32
    requires |b| == 4
  {
    ((b[0] as int * 256 + b[1] as int) * 256 + b[2] as int) * 256 + b[3] as int
  }

  /** The conversions between int32_t and uint32_t that htonl and ntohl imply. */
  function Unsigned(v: i32): u32 {
    if v < 0 then v + WORD else v
  }

  function Signed(w: u32): i32 {
    if w < HALF then w else w - WORD
  }

  lemma WordValue(v: u32)
    ensures |Word(v)| == 4 && Value(Word(v)) == v
  {
  }

  lemma Digit(q: nat, d: nat)
    requires d < 256
    ensures (q * 256 + d) / 256 == q && (q * 256 + d) % 256 == d
  {
  }

  lemma ValueWord(b: seq<byte>)
    requires |b| == 4
    ensures Word(Value(b)) == b
  {
    var b0, b1, b2, b3 := b[0] as nat, b[1] as nat, b[2] as nat, b[3] as nat;
    Digit((b0 * 256 + b1) * 256 + b2, b3);
    Digit(b0 * 256 + b1, b2);
    Digit(b0, b1);
    assert Word(Value(b)) == [b[0], b[1], b[2], b[3]];
  }

  /** Network order: the first byte weighs most, and each of the others 256 times less than the one before. */
  lemma WordIsBigEndian(v: u32)
    ensures |Word(v)| == 4
    ensures Word(v)[0] as int == v / 0x100_0000 && Word(v)[1] as int == v / 0x1_0000 % 256
    ensures Word(v)[2] as int == v / 0x100 % 256 && Word(v)[3] as int == v % 256
    ensures v == 0x100_0000 * Word(v)[0] as int + 0x1_0000 * Word(v)[1] as int + 0x100 * Word(v)[2] as int + Word(v)[3] as int
  {
  }

  lemma ValueIsBigEndian(b: seq<byte>)
    requires |b| == 4
    ensures Value(b) == 0x100_0000 * b[0] as int + 0x1_0000 * b[1] as int + 0x100 * b[2] as int + b[3] as int
  {
  }

  /** A negative number goes over the wire in two's complement. */
  lemma TwosComplement(v: i32)
    ensures (Unsigned(v) - v) % WORD == 0 && Signed(Unsigned(v)) == v
    ensures v < 0 <==> Unsigned(v) >= HALF
  {
  }

  function Words(ws: seq<u32>): seq<byte>
    decreases |ws|
  {
    if ws == [] then [] else Words(ws[..|ws| - 1]) + Word(ws[|ws| - 1])
  }

  function Values(b: seq<byte>): seq<u32>
    requires |b| % 4 == 0
    decreases |b|
  {
    if b == [] then [] else Values(b[..|b| - 4]) + [Value(b[|b| - 4..])]
  }

  lemma {:induction false} WordsLength(ws: seq<u32>)
    ensures |Words(ws)| == 4 * |ws|
    decreases |ws|
  {
    if ws != [] { WordsLength(ws[..|ws| - 1]); }
  }

  lemma {:induction false} ValuesWords(ws: seq<u32>)
    ensures |Words(ws)| % 4 == 0 && Values(Words(ws)) == ws
    decreases |ws|
  {
    WordsLength(ws);
    if ws != [] {
      var v, w := ws[..|ws| - 1], ws[|ws| - 1];
      ValuesWords(v);
      WordValue(w);
      var b := Words(ws);
      assert b[..|b| - 4] == Words(v) && b[|b| - 4..] == Word(w);
    }
  }

  lemma {:induction false} WordsValues(b: seq<byte>)
    requires |b| % 4 == 0
    ensures |Values(b)| == |b| / 4 && Words(Values(b)) == b
    decreases |b|
  {
    if b != [] {
      var a, w := b[..|b| - 4], b[|b| - 4..];
      WordsValues(a);
      ValueWord(w);
      var vs := Values(b);
      assert vs[..|vs| - 1] == Values(a) && vs[|vs| - 1] == Value(w);
      assert b == a + w;
    }
  }

  // ---------- messages as words ----------

  function ClockWords(vc: seq<Clock>): seq<u32>
    decreases |vc|
  {
    if vc == [] then [] else ClockWords(vc[..|vc| - 1]) + [vc[|vc| - 1].nodeId, vc[|vc| - 1].time]
  }

  function WordClocks(ws: seq<u32>): seq<Clock>
    requires |ws| % 2 == 0
    decreases |ws|
  {
    if ws == [] then [] else WordClocks(ws[..|ws| - 2]) + [Clock(ws[|ws| - 2], ws[|ws| - 1])]
  }

  lemma {:induction false} ClocksBack(vc: seq<Clock>)
    ensures |ClockWords(vc)| == 2 * |vc| && WordClocks(ClockWords(vc)) == vc
    decreases |vc|
  {
    if vc != [] {
      ClocksBack(vc[..|vc| - 1]);
      var ws := ClockWords(vc);
      assert ws[..|ws| - 2] == ClockWords(vc[..|vc| - 1]);
    }
  }

  lemma {:induction false} ClocksForth(ws: seq<u32>)
    requires |ws| % 2 == 0
    ensures |WordClocks(ws)| == |ws| / 2 && ClockWords(WordClocks(ws)) == ws
    decreases |ws|
  {
    if ws != [] {
      var front, id, time := ws[..|ws| - 2], ws[|ws| - 2], ws[|ws| - 1];
      assert ws == front + [id, time];
      ClocksForth(front);
      OneMoreClock(WordClocks(front), Clock(id, time));
    }
  }

  lemma OneMoreClock(vc: seq<Clock>, c: Clock)
    ensures ClockWords(vc + [c]) == ClockWords(vc) + [c.nodeId, c.time]
  {
    assert (vc + [c])[..|vc|] == vc;
  }

  function WorkerWords(m: WorkerMsg): seq<u32> {
    [m.msgID, m.tid, m.nodeId, m.isCrash] + ClockWords(m.clock)
  }

  function CommandWords(m: CommandMsg): seq<u32> {
    [m.msgID, m.tid, m.port, Unsigned(m.newValue), Unsigned(m.delay)]
  }

  function ElectionWords(m: ElectionMsg): seq<u32> {
    [m.msgID, m.electionID] + ClockWords(m.clock)
  }

  function WorkerBytes(m: WorkerMsg): seq<byte> {
    Words(WorkerWords(m))
  }

  function CommandBytes(m: CommandMsg): seq<byte> {
    Words(CommandWords(m)) + m.text
  }

  function ElectionBytes(m: ElectionMsg): seq<byte> {
    Words(ElectionWords(m))
  }

  function WorkerOf(b: seq<byte>): WorkerMsg
    requires |b| == 16 + 8 * CLOCKS
  {
    WordsValues(b);
    var ws := Values(b);
    WorkerMsg(ws[0], ws[1], ws[2], ws[3], WordClocks(ws[4..]))
  }

  function CommandOf(b: seq<byte>): CommandMsg
    requires |b| == 20 + STRLEN
  {
    WordsValues(b[..20]);
    var ws := Values(b[..20]);
    CommandMsg(ws[0], ws[1], ws[2], Signed(ws[3]), Signed(ws[4]), b[20..])
  }

  function ElectionOf(b: seq<byte>): ElectionMsg
    requires |b| == 8 + 8 * ELECTION_CLOCKS
  {
    WordsValues(b);
    var ws := Values(b);
    ElectionMsg(ws[0], ws[1], WordClocks(ws[2..]))
  }

  // ---------- where the fields stand ----------

  lemma {:induction false} WordsAt(ws: seq<u32>, k: nat)
    requires k < |ws|
    ensures |Words(ws)| == 4 * |ws| && Words(ws)[4 * k..4 * k + 4] == Word(ws[k])
    decreases |ws|
  {
    var front := ws[..|ws| - 1];
    WordsLength(ws);
    WordsLength(front);
    if k < |ws| - 1 {
      WordsAt(front, k);
      assert Words(ws)[4 * k..4 * k + 4] == Words(front)[4 * k..4 * k + 4];
    } else {
      assert Words(ws)[4 * k..4 * k + 4] == Word(ws[k]);
    }
  }

  lemma {:induction false} ClockWordsAt(vc: seq<Clock>, i: nat)
    requires i < |vc|
    ensures |ClockWords(vc)| == 2 * |vc| && ClockWords(vc)[2 * i] == vc[i].nodeId && ClockWords(vc)[2 * i + 1] == vc[i].time
    decreases |vc|
  {
    ClocksBack(vc);
    ClocksBack(vc[..|vc| - 1]);
    if i < |vc| - 1 { ClockWordsAt(vc[..|vc| - 1], i); }
  }

  /** A worker message is its msgID, tid, nodeId and crash flag, and then the clock's entries, each its id and its time. */
  lemma WorkerLayout(m: WorkerMsg, i: nat)
    requires |m.clock| == CLOCKS && i < CLOCKS
    ensures var b := WorkerBytes(m);
      && |b| == 96
      && b[0..4] == Word(m.msgID) && b[4..8] == Word(m.tid) && b[8..12] == Word(m.nodeId) && b[12..16] == Word(m.isCrash)
      && b[16 + 8 * i..20 + 8 * i] == Word(m.clock[i].nodeId) && b[20 + 8 * i..24 + 8 * i] == Word(m.clock[i].time)
  {
    hide Word, Words, ClockWords;
    ClockWordsAt(m.clock, i);
    var ws := WorkerWords(m);
    WordsAt(ws, 0);
    WordsAt(ws, 1);
    WordsAt(ws, 2);
    WordsAt(ws, 3);
    WordsAt(ws, 4 + 2 * i);
    WordsAt(ws, 5 + 2 * i);
  }

  lemma CommandWordAt(m: CommandMsg, k: nat)
    requires k < 5
    ensures |CommandBytes(m)| == 20 + |m.text| && CommandBytes(m)[4 * k..4 * k + 4] == Word(CommandWords(m)[k])
    ensures CommandBytes(m)[20..] == m.text
  {
    hide Word, Words, Unsigned;
    var ws := CommandWords(m);
    WordsAt(ws, k);
    var head, b := Words(ws), CommandBytes(m);
    assert |ws| == 5;
    assert b[4 * k..4 * k + 4] == head[4 * k..4 * k + 4];
  }

  /** A command message is its msgID, tid, port, new value and delay, and then the text. */
  lemma CommandLayout(m: CommandMsg)
    requires |m.text| == STRLEN
    ensures var b := CommandBytes(m);
      && |b| == 84
      && b[0..4] == Word(m.msgID) && b[4..8] == Word(m.tid) && b[8..12] == Word(m.port)
      && b[12..16] == Word(Unsigned(m.newValue)) && b[16..20] == Word(Unsigned(m.delay)) && b[20..] == m.text
  {
    hide Word, Words, Unsigned, CommandBytes;
    CommandWordAt(m, 0);
    CommandWordAt(m, 1);
    CommandWordAt(m, 2);
    CommandWordAt(m, 3);
    CommandWordAt(m, 4);
  }

  /** An election message is its msgID and electionID, and then the clock's entries. */
  lemma ElectionLayout(m: ElectionMsg, i: nat)
    requires |m.clock| == ELECTION_CLOCKS && i < ELECTION_CLOCKS
    ensures var b := ElectionBytes(m);
      && |b| == 80
      && b[0..4] == Word(m.msgID) && b[4..8] == Word(m.electionID)
      && b[8 + 8 * i..12 + 8 * i] == Word(m.clock[i].nodeId) && b[12 + 8 * i..16 + 8 * i] == Word(m.clock[i].time)
  {
    hide Word, Words, ClockWords;
    ClockWordsAt(m.clock, i);
    var ws := ElectionWords(m);
    WordsAt(ws, 0);
    WordsAt(ws, 1);
    WordsAt(ws, 2 + 2 * i);
    WordsAt(ws, 3 + 2 * i);
  }

  // ---------- round trips, both ways ----------

  lemma WorkerThere(m: WorkerMsg)
    requires |m.clock| == CLOCKS
    ensures |WorkerBytes(m)| == 96 && WorkerOf(WorkerBytes(m)) == m
  {
    ClocksBack(m.clock);
    WordsLength(WorkerWords(m));
    ValuesWords(WorkerWords(m));
    assert WorkerWords(m)[4..] == ClockWords(m.clock);
  }

  lemma WorkerBack(b: seq<byte>)
    requires |b| == 96
    ensures |WorkerOf(b).clock| == CLOCKS && WorkerBytes(WorkerOf(b)) == b
  {
    hide Words, Values, WordClocks, ClockWords;
    WordsValues(b);
    ClocksForth(Values(b)[4..]);
    assert WorkerWords(WorkerOf(b)) == Values(b);
  }

  lemma CommandThere(m: CommandMsg)
    requires |m.text| == STRLEN
    ensures |CommandBytes(m)| == 84 && CommandOf(CommandBytes(m)) == m
  {
    WordsLength(CommandWords(m));
    ValuesWords(CommandWords(m));
    assert CommandBytes(m)[..20] == Words(CommandWords(m)) && CommandBytes(m)[20..] == m.text;
  }

  lemma CommandBack(b: seq<byte>)
    requires |b| == 84
    ensures |CommandOf(b).text| == STRLEN && CommandBytes(CommandOf(b)) == b
  {
    WordsValues(b[..20]);
    assert CommandWords(CommandOf(b)) == Values(b[..20]);
    assert b == b[..20] + b[20..];
  }

  lemma ElectionThere(m: ElectionMsg)
    requires |m.clock| == ELECTION_CLOCKS
    ensures |ElectionBytes(m)| == 80 && ElectionOf(ElectionBytes(m)) == m
  {
    ClocksBack(m.clock);
    WordsLength(ElectionWords(m));
    ValuesWords(ElectionWords(m));
    assert ElectionWords(m)[2..] == ClockWords(m.clock);
  }

  lemma ElectionBack(b: seq<byte>)
    requires |b| == 80
    ensures |ElectionOf(b).clock| == ELECTION_CLOCKS && ElectionBytes(ElectionOf(b)) == b
  {
    hide Words, Values, WordClocks, ClockWords;
    WordsValues(b);
    ClocksForth(Values(b)[2..]);
    assert ElectionWords(ElectionOf(b)) == Values(b);
  }

  lemma {:induction false} WordsAppend(a: seq<u32>, b: seq<u32>)
    ensures Words(a + b) == Words(a) + Words(b)
    decreases |b|
  {
    if b == [] {
      assert a + b == a;
    } else {
      assert (a + b)[..|a + b| - 1] == a + b[..|b| - 1];
      WordsAppend(a, b[..|b| - 1]);
    }
  }

  lemma WordsOne(w: u32)
    ensures Words([w]) == Word(w)
  {
    assert [w][..0] == [];
    assert Words([]) == [];
  }

  lemma WordsTwo(v: u32, w: u32)
    ensures Words([v, w]) == Word(v) + Word(w)
  {
    WordsOne(v);
    assert [v, w][..1] == [v];
  }

  // ---------- filling a buffer ----------

  /** `now` is `was` with the bytes `b` written from position `at` on: these positions once, no others. */
  ghost predicate Written(was: seq<byte>, now: seq<byte>, at: nat, b: seq<byte>) {
    && |now| == |was| && at + |b| <= |was| && now[at..at + |b|] == b
    && now[..at] == was[..at] && now[at + |b|..] == was[at + |b|..]
  }

  /** Writing behind what was just written. */
  lemma WrittenOn(was: seq<byte>, mid: seq<byte>, now: seq<byte>, at: nat, b: seq<byte>, c: seq<byte>)
    requires Written(was, mid, at, b) && Written(mid, now, at + |b|, c)
    ensures Written(was, now, at, b + c)
  {
    assert now[at..at + |b|] == now[..at + |b|][at..] == mid[..at + |b|][at..] == b;
    assert now[at..at + |b + c|] == now[at..at + |b|] + now[at + |b|..at + |b| + |c|];
    assert now[..at] == now[..at + |b|][..at] == mid[..at + |b|][..at] == mid[..at];
    assert was[at + |b + c|..] == was[at + |b|..][|c|..] == mid[at + |b|..][|c|..] == mid[at + |b| + |c|..];
  }

  /** htonl and memcpy of one field: four bytes are written, and the position moves behind them. */
  method SerializeUnsignedInt(buffer: array<byte>, at: nat, val: u32) returns (next: nat)
    requires at + 4 <= buffer.Length
    modifies buffer
    ensures next == at + 4 && Written(old(buffer[..]), buffer[..], at, Word(val))
  {
    var word := Word(val);
    var i := 0;
    while i < 4
      invariant 0 <= i <= 4 && Written(old(buffer[..]), buffer[..], at, word[..i])
    {
      ghost var mid := buffer[..];
      buffer[at + i] := word[i];
      assert Written(mid, buffer[..], at + i, [word[i]]);
      WrittenOn(old(buffer[..]), mid, buffer[..], at, word[..i], [word[i]]);
      assert word[..i + 1] == word[..i] + [word[i]];
      i := i + 1;
    }
    next := at + 4;
  }

  method SerializeInt(buffer: array<byte>, at: nat, val: i32) returns (next: nat)
    requires at + 4 <= buffer.Length
    modifies buffer
    ensures next == at + 4 && Written(old(buffer[..]), buffer[..], at, Word(Unsigned(val)))
  {
    next := SerializeUnsignedInt(buffer, at, Unsigned(val));
  }

  /** One more word behind the words `ws` at the front. */
  lemma WordOn(was: seq<byte>, mid: seq<byte>, now: seq<byte>, ws: seq<u32>, w: u32, all: seq<u32>)
    requires Written(was, mid, 0, Words(ws)) && Written(mid, now, 4 * |ws|, Word(w)) && all == ws + [w]
    ensures Written(was, now, 0, Words(all))
  {
    hide Written, Words, Word;
    WordsLength(ws);
    WrittenOn(was, mid, now, 0, Words(ws), Word(w));
    WordsAppend(ws, [w]);
    WordsOne(w);
  }

  lemma NothingWritten(was: seq<byte>)
    ensures Written(was, was, 0, Words([]))
  {
  }

  method SerializeClock(buffer: array<byte>, at: nat, vc: seq<Clock>) returns (next: nat)
    requires at + 8 * |vc| <= buffer.Length
    modifies buffer
    ensures next == at + 8 * |vc| && Written(old(buffer[..]), buffer[..], at, Words(ClockWords(vc)))
  {
    next := at;
    var i := 0;
    while i < |vc|
      invariant 0 <= i <= |vc| && next == at + 8 * i
      invariant Written(old(buffer[..]), buffer[..], at, Words(ClockWords(vc[..i])))
    {
      ClockLength(vc[..i]);
      next := SerializeEntry(buffer, at, next, vc[i], old(buffer[..]), Words(ClockWords(vc[..i])));
      ClockStep(vc, i);
      i := i + 1;
    }
    assert vc[..i] == vc;
  }

  method SerializeEntry(buffer: array<byte>, ghost start: nat, at: nat, e: Clock, ghost was: seq<byte>, ghost done: seq<byte>) returns (next: nat)
    requires at + 8 <= buffer.Length && Written(was, buffer[..], start, done) && start + |done| == at
    modifies buffer
    ensures next == at + 8 && Written(was, buffer[..], start, done + Words([e.nodeId, e.time]))
  {
    ghost var mid := buffer[..];
    next := SerializeUnsignedInt(buffer, at, e.nodeId);
    WrittenOn(was, mid, buffer[..], start, done, Word(e.nodeId));
    mid := buffer[..];
    next := SerializeUnsignedInt(buffer, next, e.time);
    WrittenOn(was, mid, buffer[..], start, done + Word(e.nodeId), Word(e.time));
    WordsTwo(e.nodeId, e.time);
    assert done + Word(e.nodeId) + Word(e.time) == done + Words([e.nodeId, e.time]);
  }

  lemma ClockLength(vc: seq<Clock>)
    ensures |Words(ClockWords(vc))| == 8 * |vc|
  {
    ClocksBack(vc);
    WordsLength(ClockWords(vc));
  }

  lemma ClockStep(vc: seq<Clock>, i: nat)
    requires i < |vc|
    ensures Words(ClockWords(vc[..i + 1])) == Words(ClockWords(vc[..i])) + Words([vc[i].nodeId, vc[i].time])
  {
    assert vc[..i + 1][..i] == vc[..i];
    WordsAppend(ClockWords(vc[..i]), [vc[i].nodeId, vc[i].time]);
  }

  method SerializeWorkerMsg(buffer: array<byte>, m: WorkerMsg)
    requires |m.clock| == CLOCKS && buffer.Length >= 96
    modifies buffer
    ensures Written(old(buffer[..]), buffer[..], 0, WorkerBytes(m))
  {
    hide Written, Words, Word;
    ghost var was := buffer[..];
    ghost var b0 := buffer[..];
    NothingWritten(was);
    var next := SerializeUnsignedInt(buffer, 0, m.msgID);
    ghost var b1 := buffer[..];
    WordOn(was, b0, b1, [], m.msgID, [m.msgID]);
    next := SerializeUnsignedInt(buffer, next, m.tid);
    ghost var b2 := buffer[..];
    WordOn(was, b1, b2, [m.msgID], m.tid, [m.msgID, m.tid]);
    next := SerializeUnsignedInt(buffer, next, m.nodeId);
    ghost var b3 := buffer[..];
    WordOn(was, b2, b3, [m.msgID, m.tid], m.nodeId, [m.msgID, m.tid, m.nodeId]);
    next := SerializeUnsignedInt(buffer, next, m.isCrash);
    ghost var b4 := buffer[..];
    ghost var head := [m.msgID, m.tid, m.nodeId, m.isCrash];
    WordOn(was, b3, b4, [m.msgID, m.tid, m.nodeId], m.isCrash, [m.msgID, m.tid, m.nodeId, m.isCrash]);
    next := SerializeClock(buffer, next, m.clock);
    WordsLength(head);
    WrittenOn(was, b4, buffer[..], 0, Words(head), Words(ClockWords(m.clock)));
    WordsAppend(head, ClockWords(m.clock));
  }

  method SerializeElectionMsg(buffer: array<byte>, m: ElectionMsg)
    requires |m.clock| == ELECTION_CLOCKS && buffer.Length >= 80
    modifies buffer
    ensures Written(old(buffer[..]), buffer[..], 0, ElectionBytes(m))
  {
    hide Written, Words, Word;
    ghost var was := buffer[..];
    NothingWritten(was);
    var next := SerializeUnsignedInt(buffer, 0, m.msgID);
    ghost var b1 := buffer[..];
    WordOn(was, was, b1, [], m.msgID, [m.msgID]);
    next := SerializeUnsignedInt(buffer, next, m.electionID);
    ghost var b2 := buffer[..];
    ghost var head := [m.msgID, m.electionID];
    WordOn(was, b1, b2, [m.msgID], m.electionID, [m.msgID, m.electionID]);
    next := SerializeClock(buffer, next, m.clock);
    WordsLength(head);
    WrittenOn(was, b2, buffer[..], 0, Words(head), Words(ClockWords(m.clock)));
    WordsAppend(head, ClockWords(m.clock));
  }

  /** The five integers of a command message. */
  method SerializeCommandHead(buffer: array<byte>, m: CommandMsg) returns (next: nat)
    requires buffer.Length >= 20
    modifies buffer
    ensures next == 20 && Written(old(buffer[..]), buffer[..], 0, Words(CommandWords(m)))
  {
    hide Written, Words, Word;
    ghost var was := buffer[..];
    NothingWritten(was);
    next := SerializeUnsignedInt(buffer, 0, m.msgID);
    ghost var b1 := buffer[..];
    WordOn(was, was, b1, [], m.msgID, [m.msgID]);
    next := SerializeUnsignedInt(buffer, next, m.tid);
    ghost var b2 := buffer[..];
    WordOn(was, b1, b2, [m.msgID], m.tid, [m.msgID, m.tid]);
    next := SerializeUnsignedInt(buffer, next, m.port);
    ghost var b3 := buffer[..];
    WordOn(was, b2, b3, [m.msgID, m.tid], m.port, [m.msgID, m.tid, m.port]);
    next := SerializeInt(buffer, next, m.newValue);
    ghost var b4 := buffer[..];
    WordOn(was, b3, b4, [m.msgID, m.tid, m.port], Unsigned(m.newValue), [m.msgID, m.tid, m.port, Unsigned(m.newValue)]);
    next := SerializeInt(buffer, next, m.delay);
    WordOn(was, b4, buffer[..], [m.msgID, m.tid, m.port, Unsigned(m.newValue)], Unsigned(m.delay), CommandWords(m));
  }

  /** Both arms of the source's test on NEW_IDSTR copy the same 64 bytes of the union. */
  method SerializeCommandMsg(buffer: array<byte>, m: CommandMsg)
    requires |m.text| == STRLEN && buffer.Length >= 84
    modifies buffer
    ensures Written(old(buffer[..]), buffer[..], 0, CommandBytes(m))
  {
    var next := SerializeCommandHead(buffer, m);
    WordsLength(CommandWords(m));
    var i := 0;
    while i < STRLEN
      invariant 0 <= i <= STRLEN
      invariant Written(old(buffer[..]), buffer[..], 0, Words(CommandWords(m)) + m.text[..i])
    {
      ghost var mid := buffer[..];
      buffer[next + i] := m.text[i];
      assert Written(mid, buffer[..], 20 + i, [m.text[i]]);
      WrittenOn(old(buffer[..]), mid, buffer[..], 0, Words(CommandWords(m)) + m.text[..i], [m.text[i]]);
      assert Words(CommandWords(m)) + m.text[..i] + [m.text[i]] == Words(CommandWords(m)) + m.text[..i + 1];
      i := i + 1;
    }
    assert m.text[..i] == m.text;
  }

  // ---------- reading a buffer ----------

  method DeserializeUnsignedInt(buffer: array<byte>, at: nat) returns (val: u32, next: nat)
    requires at + 4 <= buffer.Length
    ensures next == at + 4 && val == Value(buffer[at..next])
  {
    next := at + 4;
    val := ((buffer[at] as int * 256 + buffer[at + 1] as int) * 256 + buffer[at + 2] as int) * 256 + buffer[at + 3] as int;
  }

  method DeserializeInt(buffer: array<byte>, at: nat) returns (val: i32, next: nat)
    requires at + 4 <= buffer.Length
    ensures next == at + 4 && val == Signed(Value(buffer[at..next]))
  {
    var w;
    w, next := DeserializeUnsignedInt(buffer, at);
    val := if w < HALF then w else w - WORD;
  }

  lemma {:induction false} ValuesAppend(a: seq<byte>, b: seq<byte>)
    requires |a| % 4 == 0 && |b| % 4 == 0
    ensures Values(a + b) == Values(a) + Values(b)
    decreases |b|
  {
    hide Value;
    if b == [] {
      assert a + b == a;
    } else {
      var ab := a + b;
      assert ab[..|ab| - 4] == a + b[..|b| - 4] && ab[|ab| - 4..] == b[|b| - 4..];
      ValuesAppend(a, b[..|b| - 4]);
    }
  }

  lemma ValuesOne(b: seq<byte>)
    requires |b| == 4
    ensures Values(b) == [Value(b)]
  {
    assert b[..0] == [] && b[0..] == b;
    assert Values([]) == [];
  }

  /** Reading the word at `n` continues the `k` words read so far. */
  lemma ValueOn(b: seq<byte>, at: nat, k: nat, n: nat)
    requires n == at + 4 * k && n + 4 <= |b|
    ensures Values(b[at..n + 4]) == Values(b[at..n]) + [Value(b[n..n + 4])]
  {
    assert b[at..n + 4] == b[at..n] + b[n..n + 4];
    ValuesAppend(b[at..n], b[n..n + 4]);
    ValuesOne(b[n..n + 4]);
  }

  lemma ClockOn(ws: seq<u32>, id: u32, time: u32)
    requires |ws| % 2 == 0
    ensures WordClocks(ws + [id] + [time]) == WordClocks(ws) + [Clock(id, time)]
  {
    var all := ws + [id] + [time];
    assert all[..|all| - 2] == ws;
  }

  /** Two more words make one more entry. */
  lemma EntryOn(b: seq<byte>, at: nat, i: nat, n: nat)
    requires n == at + 8 * i && n + 8 <= |b|
    ensures |Values(b[at..n])| == 2 * i && |Values(b[at..n + 8])| == 2 * i + 2
    ensures WordClocks(Values(b[at..n + 8])) == WordClocks(Values(b[at..n])) + [Clock(Value(b[n..n + 4]), Value(b[n + 4..n + 8]))]
  {
    hide Values, Value, WordClocks;
    LengthOf(b[at..n], 2 * i);
    ValueOn(b, at, i + i, n);
    ValueOn(b, at, i + i + 1, n + 4);
    ClockOn(Values(b[at..n]), Value(b[n..n + 4]), Value(b[n + 4..n + 8]));
  }

  lemma LengthOf(b: seq<byte>, k: nat)
    requires |b| == 4 * k
    ensures |Values(b)| == k
  {
    WordsValues(b);
  }

  /** The clock's loop: pairs of words from `at` on. */
  method DeserializeClock(buffer: array<byte>, at: nat, n: nat) returns (vc: seq<Clock>, next: nat)
    requires at + 8 * n <= buffer.Length
    ensures next == at + 8 * n && |Values(buffer[at..next])| == 2 * n && vc == WordClocks(Values(buffer[at..next]))
  {
    ghost var b := buffer[..];
    vc, next := [], at;
    assert b[at..at] == [] && Values([]) == [] && WordClocks([]) == [];
    hide Values, Value, WordClocks;
    var i := 0;
    while i < n
      invariant 0 <= i <= n && next == at + 8 * i
      invariant |Values(b[at..next])| == 2 * i && vc == WordClocks(Values(b[at..next]))
    {
      EntryOn(b, at, i, next);
      assert b[next..next + 4] == buffer[next..next + 4] && b[next + 4..next + 8] == buffer[next + 4..next + 8];
      var id, time;
      id, next := DeserializeUnsignedInt(buffer, next);
      time, next := DeserializeUnsignedInt(buffer, next);
      vc := vc + [Clock(id, time)];
      i := i + 1;
    }
    assert b[at..next] == buffer[at..next];
  }

  method DeserializeWorkerMsg(buffer: array<byte>) returns (m: WorkerMsg)
    requires buffer.Length >= 96
    ensures m == WorkerOf(buffer[..96])
  {
    hide Value, WordClocks;
    ghost var b := buffer[..96];
    var msgID, tid, nodeId, isCrash, clock, next;
    msgID, next := DeserializeUnsignedInt(buffer, 0);
    tid, next := DeserializeUnsignedInt(buffer, next);
    nodeId, next := DeserializeUnsignedInt(buffer, next);
    isCrash, next := DeserializeUnsignedInt(buffer, next);
    clock, next := DeserializeClock(buffer, next, CLOCKS);
    m := WorkerMsg(msgID, tid, nodeId, isCrash, clock);
    assert buffer[0..4] == b[0..4] && buffer[4..8] == b[4..8] && buffer[8..12] == b[8..12] && buffer[12..16] == b[12..16];
    FourWords(b);
    assert b == b[..16] + b[16..] && buffer[16..96] == b[16..];
    ValuesAppend(b[..16], b[16..]);
    assert Values(b)[4..] == Values(b[16..]);
  }

  lemma TwoWords(b: seq<byte>)
    requires |b| >= 8
    ensures Values(b[..8]) == [Value(b[0..4]), Value(b[4..8])]
  {
    hide Values, Value;
    assert b[..8] == b[0..4] + b[4..8];
    ValuesOne(b[0..4]);
    ValuesOne(b[4..8]);
    ValuesAppend(b[0..4], b[4..8]);
  }

  lemma FourWords(b: seq<byte>)
    requires |b| >= 16
    ensures Values(b[..16]) == [Value(b[0..4]), Value(b[4..8]), Value(b[8..12]), Value(b[12..16])]
  {
    hide Values, Value;
    var c := b[8..];
    assert b[..16] == b[..8] + c[..8] && c[0..4] == b[8..12] && c[4..8] == b[12..16];
    TwoWords(b);
    TwoWords(c);
    ValuesAppend(b[..8], c[..8]);
  }

  method DeserializeElectionMsg(buffer: array<byte>) returns (m: ElectionMsg)
    requires buffer.Length >= 80
    ensures m == ElectionOf(buffer[..80])
  {
    hide Value, WordClocks;
    ghost var b := buffer[..80];
    var msgID, electionID, clock, next;
    msgID, next := DeserializeUnsignedInt(buffer, 0);
    electionID, next := DeserializeUnsignedInt(buffer, next);
    clock, next := DeserializeClock(buffer, next, ELECTION_CLOCKS);
    m := ElectionMsg(msgID, electionID, clock);
    assert buffer[0..4] == b[0..4] && buffer[4..8] == b[4..8];
    TwoWords(b);
    assert b == b[..8] + b[8..] && buffer[8..80] == b[8..];
    ValuesAppend(b[..8], b[8..]);
    assert Values(b)[2..] == Values(b[8..]);
  }

  method DeserializeCommandMsg(buffer: array<byte>) returns (m: CommandMsg)
    requires buffer.Length >= 84
    ensures m == CommandOf(buffer[..84])
  {
    hide Value;
    ghost var b := buffer[..84];
    var msgID, tid, port, newValue, delay, next;
    msgID, next := DeserializeUnsignedInt(buffer, 0);
    tid, next := DeserializeUnsignedInt(buffer, next);
    port, next := DeserializeUnsignedInt(buffer, next);
    newValue, next := DeserializeInt(buffer, next);
    delay, next := DeserializeInt(buffer, next);
    assert buffer[0..4] == b[0..4] && buffer[4..8] == b[4..8] && buffer[8..12] == b[8..12] && buffer[12..16] == b[12..16];
    assert buffer[16..20] == b[16..20];
    FourWords(b);
    ValueOn(b, 0, 4, 16);
    assert Values(b[..20]) == Values(b[0..20]);
    var text: seq<byte> := [];
    while |text| < STRLEN
      invariant |text| <= STRLEN && text == buffer[20..20 + |text|]
    {
      text := text + [buffer[next + |text|]];
    }
    m := CommandMsg(msgID, tid, port, newValue, delay, text);
    assert text == b[20..];
  }
}
