/** The command stream of the status server: a one-pass automaton over bytes. */
module CommandParser {
  const RCVBUFSIZE := 32
  const NUL: char := '\0'

  /** Replies as the client sees them; the values of uptime and load come from the host. */
  datatype Reply = Uptime | Load | Sum(total: int) | Bye | Invalid

  datatype Parse = Parse(pending: string, invalid: nat, open: bool, replies: seq<Reply>)

  function Start(): Parse {
    Parse([], 0, true, [])
  }

  predicate IsDigit(c: char) {
    '0' <= c <= '9'
  }

  predicate AllDigits(s: string) {
    forall i :: 0 <= i < |s| ==> IsDigit(s[i])
  }

  function DigitSum(s: string): int {
    if s == [] then 0 else DigitSum(s[..|s| - 1]) + (s[|s| - 1] as int - '0' as int)
  }

  function Wait(p: Parse, w: string): Parse {
    p.(pending := w, invalid := 0)
  }

  function Answer(p: Parse, r: Reply): Parse {
    p.(pending := [], invalid := 0, replies := p.replies + [r])
  }

  function Reject(p: Parse): Parse {
    p.(pending := [], invalid := p.invalid + 1, open := p.invalid + 1 <= 2, replies := p.replies + [Invalid])
  }

  /** One byte. A byte that breaks off a longer pending text is looked at again on its own. */
  function Feed(p: Parse, c: char): Parse
    decreases |p.pending|
  {
    var w := p.pending + [c];
    var n := |w|;
    if !p.open then p
    else if w <= "uptime" then if n == |"uptime"| then Answer(p, Uptime) else Wait(p, w)
    else if w <= "load" then if n == |"load"| then Answer(p, Load) else Wait(p, w)
    else if w <= "exit" then Answer(p, Bye).(open := false)
    else if IsDigit(c) || c == ' ' then
      if (n > 1 && !IsDigit(w[n - 2])) || (n == 1 && c == ' ') then Reject(p)
      else if c == ' ' then Answer(p, Sum(DigitSum(p.pending)))
      else Wait(p, w)
    else if n == 1 then Reject(p)
    else Feed(Reject(p), c)
  }

  function Run(p: Parse, s: string): Parse
    decreases |s|
  {
    if s == [] then p else Run(Feed(p, s[0]), s[1..])
  }

  // ---------- what the pending text can be ----------

  predicate Partial(w: string) {
    w == [] || (w <= "uptime" && |w| < |"uptime"|) || (w <= "load" && |w| < |"load"|) || AllDigits(w)
  }

  predicate Inv(p: Parse) {
    Partial(p.pending) && (p.pending != [] ==> p.invalid == 0) && (p.open ==> p.invalid <= 2) && (!p.open ==> p.pending == [])
  }

  lemma {:induction false} FeedKeeps(p: Parse, c: char)
    requires Inv(p)
    ensures Inv(Feed(p, c))
    decreases |p.pending|
  {
    if p.open && p.pending != [] { FeedKeeps(Reject(p), c); }
  }

  lemma {:induction false} RunKeeps(p: Parse, s: string)
    requires Inv(p)
    ensures Inv(Run(p, s))
    decreases |s|
  {
    if s != [] {
      FeedKeeps(p, s[0]);
      RunKeeps(Feed(p, s[0]), s[1..]);
    }
  }

  lemma {:induction false} RunAppend(p: Parse, a: string, b: string)
    ensures Run(p, a + b) == Run(Run(p, a), b)
    decreases |a|
  {
    if a == [] {
      assert a + b == b;
    } else {
      RunAppend(Feed(p, a[0]), a[1..], b);
      assert (a + b)[1..] == a[1..] + b;
    }
  }

  lemma {:induction false} RunClosed(p: Parse, s: string)
    requires !p.open
    ensures Run(p, s) == p
    decreases |s|
  {
    if s != [] { RunClosed(p, s[1..]); }
  }

  // ---------- rescanning ----------

  /** What the server does on a recv: it appends the chunk and scans the whole text from its first byte again. */
  function Recv(p: Parse, chunk: string): Parse {
    if p.open then Run(p.(pending := []), p.pending + chunk) else p
  }

  function RecvAll(p: Parse, chunks: seq<string>): Parse
    decreases |chunks|
  {
    if chunks == [] then p else RecvAll(Recv(p, chunks[0]), chunks[1..])
  }

  function Flat(chunks: seq<string>): string {
    if chunks == [] then [] else chunks[0] + Flat(chunks[1..])
  }

  lemma FeedPartial(p: Parse, v: string, c: char)
    requires p.open && p.pending == v && Partial(v + [c])
    ensures Feed(p, c) == Wait(p, v + [c]) && Partial(v)
  {
    var w := v + [c];
    assert w[..|v|] == v && w[|v|] == c;
    if AllDigits(w) { assert IsDigit(w[0]); }
  }

  /** A text that can be pending is rebuilt byte by byte, without a reply. */
  lemma {:induction false} Rebuild(p: Parse, w: string)
    requires p.open && p.pending == [] && w != [] && Partial(w)
    ensures Run(p, w) == p.(pending := w, invalid := 0)
    decreases |w|
  {
    var v, c := w[..|w| - 1], w[|w| - 1];
    assert w == v + [c];
    RunAppend(p, v, [c]);
    assert Run(Run(p, v), [c]) == Feed(Run(p, v), c);
    if v != [] {
      FeedPartial(p.(pending := v, invalid := 0), v, c);
      Rebuild(p, v);
    } else {
      FeedPartial(p, v, c);
    }
  }

  lemma Rescan(p: Parse, chunk: string)
    requires Inv(p)
    ensures Recv(p, chunk) == Run(p, chunk)
  {
    if !p.open {
      RunClosed(p, chunk);
    } else if p.pending == [] {
      assert p.pending + chunk == chunk;
    } else {
      Rebuild(p.(pending := []), p.pending);
      RunAppend(p.(pending := []), p.pending, chunk);
    }
  }

  lemma {:induction false} RecvAllIsRun(p: Parse, chunks: seq<string>)
    requires Inv(p)
    ensures RecvAll(p, chunks) == Run(p, Flat(chunks))
    decreases |chunks|
  {
    if chunks != [] {
      Rescan(p, chunks[0]);
      RunKeeps(p, chunks[0]);
      RecvAllIsRun(Recv(p, chunks[0]), chunks[1..]);
      RunAppend(p, chunks[0], Flat(chunks[1..]));
    }
  }

  /** However the same bytes are cut: the same replies, open or closed alike, the same pending text. */
  lemma ChunkIndependence(a: seq<string>, b: seq<string>)
    requires Flat(a) == Flat(b)
    ensures RecvAll(Start(), a) == RecvAll(Start(), b) == Run(Start(), Flat(a))
  {
    RecvAllIsRun(Start(), a);
    RecvAllIsRun(Start(), b);
  }

  /** The connection closes at one byte: every longer stream is closed with the same replies, and no shorter prefix
      of it can have closed with others. */
  lemma ClosesOnce(a: string, b: string)
    requires !Run(Start(), a).open
    ensures Run(Start(), a + b) == Run(Start(), a)
  {
    RunAppend(Start(), a, b);
    RunClosed(Run(Start(), a), b);
  }

  // ---------- what is answered ----------

  datatype Command = AskUptime | AskLoad | Add(digits: string)

  predicate WellFormed(c: Command) {
    c.Add? ==> c.digits != [] && AllDigits(c.digits)
  }

  function Text(c: Command): string {
    match c
    case AskUptime => "uptime"
    case AskLoad => "load"
    case Add(ds) => ds + " "
  }

  /** The sum of the digits of a text: each digit as often as it occurs. */
  function Total(s: string): int {
    var m := multiset(s);
    m['1'] + 2 * m['2'] + 3 * m['3'] + 4 * m['4'] + 5 * m['5'] + 6 * m['6'] + 7 * m['7'] + 8 * m['8'] + 9 * m['9']
  }

  lemma OneMore(front: string, last: char, d: char)
    ensures multiset(front + [last])[d] == multiset(front)[d] + if d == last then 1 else 0
  {
  }

  lemma TotalStep(front: string, last: char)
    requires IsDigit(last)
    ensures Total(front + [last]) == Total(front) + (last as int - '0' as int)
  {
    OneMore(front, last, '1');
    OneMore(front, last, '2');
    OneMore(front, last, '3');
    OneMore(front, last, '4');
    OneMore(front, last, '5');
    OneMore(front, last, '6');
    OneMore(front, last, '7');
    OneMore(front, last, '8');
    OneMore(front, last, '9');
  }

  /** What the loop over the digits adds up is that sum, whatever their order. */
  lemma {:induction false} DigitSumIsTotal(s: string)
    requires AllDigits(s)
    ensures DigitSum(s) == Total(s)
    decreases |s|
  {
    if s != [] {
      var front, last := s[..|s| - 1], s[|s| - 1];
      assert s == front + [last] && IsDigit(last);
      hide Total;
      TotalStep(front, last);
      DigitSumIsTotal(front);
    }
  }

  function Expected(c: Command): Reply {
    match c
    case AskUptime => Uptime
    case AskLoad => Load
    case Add(ds) => Sum(Total(ds))
  }

  function Texts(cs: seq<Command>): string {
    if cs == [] then [] else Text(cs[0]) + Texts(cs[1..])
  }

  lemma OneCommand(p: Parse, c: Command)
    requires p.open && p.pending == [] && WellFormed(c)
    ensures Run(p, Text(c)) == Answer(p, Expected(c))
  {
    hide Total, DigitSum;
    var t := Text(c);
    var v, last := t[..|t| - 1], t[|t| - 1];
    assert t == v + [last];
    RunAppend(p, v, [last]);
    assert Partial(v) by {
      if c.Add? { assert v == c.digits; }
    }
    Rebuild(p, v);
    var q := Run(p, v);
    assert Run(q, [last]) == Feed(q, last);
    if c.Add? {
      assert v == c.digits;
      DigitSumIsTotal(c.digits);
    }
  }

  function AllExpected(cs: seq<Command>): seq<Reply> {
    seq(|cs|, i requires 0 <= i < |cs| => Expected(cs[i]))
  }

  lemma RepliesStep(before: seq<Reply>, cs: seq<Command>)
    requires cs != []
    ensures before + AllExpected(cs) == before + [Expected(cs[0])] + AllExpected(cs[1..])
  {
  }

  /** A stream of complete commands gets exactly their replies, in their order, and leaves nothing behind. */
  lemma {:induction false} CommandsAnswered(p: Parse, cs: seq<Command>)
    requires p.open && p.pending == [] && forall c :: c in cs ==> WellFormed(c)
    ensures var q := Run(p, Texts(cs));
      q.open && q.pending == [] && q.replies == p.replies + AllExpected(cs) && (cs != [] ==> q.invalid == 0)
    decreases |cs|
  {
    hide Feed, Expected, WellFormed, Text;
    if cs != [] {
      OneCommand(p, cs[0]);
      CommandsAnswered(Answer(p, Expected(cs[0])), cs[1..]);
      RunAppend(p, Text(cs[0]), Texts(cs[1..]));
      assert cs == [cs[0]] + cs[1..];
      RepliesStep(p.replies, cs);
    }
  }

  /** As coded, a single 'e' where a command should start ends the connection; clients send the whole word "exit". */
  lemma FirstLetterExits(cs: seq<Command>, rest: string)
    requires forall c :: c in cs ==> WellFormed(c)
    ensures var q := Run(Start(), Texts(cs) + "e" + rest);
      !q.open && q.replies == AllExpected(cs) + [Bye]
  {
    CommandsAnswered(Start(), cs);
    var p := Run(Start(), Texts(cs));
    RunAppend(Start(), Texts(cs), "e");
    assert Run(p, "e") == Feed(p, 'e') && p.pending + ['e'] == "e" && "exit"[0] == 'e';
    assert !Feed(p, 'e').open;
    ClosesOnce(Texts(cs) + "e", rest);
  }

  // ---------- what is not answered ----------

  /** A byte that cannot start a command is answered invalid on its own, and closes the connection if it is the third in a row. */
  lemma NoStart(p: Parse, c: char)
    requires Inv(p) && p.open && p.pending == [] && c != 'u' && c != 'l' && c != 'e' && !IsDigit(c)
    ensures Feed(p, c) == Parse([], p.invalid + 1, p.invalid < 2, p.replies + [Invalid])
  {
    assert p.pending + [c] == [c];
    assert "uptime"[0] == 'u' && "load"[0] == 'l' && "exit"[0] == 'e';
  }

  /** A byte that neither continues nor completes what is pending is answered invalid together with it; a digit or a space is then
      gone, any other byte is scanned as the first of a new command. */
  lemma BrokenOff(p: Parse, c: char)
    requires Inv(p) && p.open && p.pending != [] && !Partial(p.pending + [c])
    requires p.pending + [c] != "uptime" && p.pending + [c] != "load" && !(AllDigits(p.pending) && c == ' ')
    ensures var q := Parse([], 1, true, p.replies + [Invalid]); Feed(p, c) == if IsDigit(c) || c == ' ' then q else Feed(q, c)
  {
    var w := p.pending + [c];
    assert w[0] == p.pending[0] && w[..|w| - 1] == p.pending && w[|w| - 2] == p.pending[|p.pending| - 1];
    assert "uptime"[0] == 'u' && "load"[0] == 'l' && "exit"[0] == 'e';
    if p.pending <= "uptime" || p.pending <= "load" {
      assert !IsDigit(p.pending[|p.pending| - 1]) by { LettersOnly(p.pending); }
    } else {
      assert IsDigit(p.pending[0]);
      assert IsDigit(c) ==> AllDigits(w);
    }
  }

  lemma LettersOnly(w: string)
    requires w != [] && (w <= "uptime" || w <= "load")
    ensures !IsDigit(w[|w| - 1])
  {
  }

  /** After any commands three bytes that cannot start one end the connection. */
  lemma ThreeStrikes(cs: seq<Command>, a: char, b: char, c: char)
    requires forall x :: x in cs ==> WellFormed(x)
    requires forall x :: x in [a, b, c] ==> x != 'u' && x != 'l' && x != 'e' && !IsDigit(x)
    ensures Run(Start(), Texts(cs) + [a, b, c]) == Parse([], 3, false, AllExpected(cs) + [Invalid, Invalid, Invalid])
  {
    CommandsAnswered(Start(), cs);
    RunAppend(Start(), Texts(cs), [a, b, c]);
    var p := Run(Start(), Texts(cs));
    assert p.invalid == 0;
    assert a in [a, b, c] && b in [a, b, c] && c in [a, b, c];
    NoStart(p, a);
    var p1 := Feed(p, a);
    NoStart(p1, b);
    var p2 := Feed(p1, b);
    NoStart(p2, c);
    hide Feed;
    assert [a, b, c][1..] == [b, c] && [b, c][1..] == [c] && [c][1..] == [];
    assert Run(p, [a, b, c]) == Run(p1, [b, c]) == Run(p2, [c]) == Feed(p2, c);
    assert p.replies + [Invalid] + [Invalid] + [Invalid] == p.replies + [Invalid, Invalid, Invalid];
  }

  // ---------- when the connection closes ----------

  predicate Ending(p: Parse) {
    && (forall i :: 0 <= i < |p.replies| && p.replies[i] == Bye ==> i == |p.replies| - 1 && !p.open)
    && |p.replies| >= p.invalid
    && (forall i :: |p.replies| - p.invalid <= i < |p.replies| ==> p.replies[i] == Invalid)
    && (!p.open ==> p.invalid == 3 || (p.replies != [] && p.replies[|p.replies| - 1] == Bye))
  }

  lemma {:induction false} FeedEnding(p: Parse, c: char)
    requires Inv(p) && Ending(p)
    ensures Ending(Feed(p, c))
    decreases |p.pending|
  {
    if p.open && p.pending != [] { FeedEnding(Reject(p), c); }
  }

  /** The server hangs up only after a Bye or after three Invalid in a row, and nothing is ever sent after a Bye. */
  lemma {:induction false} RunEnding(p: Parse, s: string)
    requires Inv(p) && Ending(p)
    ensures Ending(Run(p, s))
    decreases |s|
  {
    if s != [] {
      FeedKeeps(p, s[0]);
      FeedEnding(p, s[0]);
      RunEnding(Feed(p, s[0]), s[1..]);
    }
  }
}
