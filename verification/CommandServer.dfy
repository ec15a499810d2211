/** The server side of one connection: HandleTCPClient with its buffers, against the one-pass automaton. */
module CommandServer {
  import opened CommandParser

  const WORD: int := 0x1_0000_0000

  /** A C string: the text, then zeros to the end of the array. */
  ghost predicate Holds(a: array<char>, s: string)
    reads a
  {
    |s| < a.Length && a[..|s|] == s && (forall i :: |s| <= i < a.Length ==> a[i] == NUL) && NoNul(s)
  }

  ghost predicate NoNul(s: string) {
    forall i :: 0 <= i < |s| ==> s[i] != NUL
  }

  lemma DigitSumBound(s: string)
    requires AllDigits(s)
    ensures 0 <= DigitSum(s) <= 9 * |s|
    decreases |s|
  {
    if s != [] { DigitSumBound(s[..|s| - 1]); }
  }

  /** Every chunk the server gets while it listens is a non-empty text that fits behind what is pending. */
  ghost predicate Fits(p: Parse, chunks: seq<string>)
    decreases |chunks|
  {
    chunks != [] && p.open ==>
      chunks[0] != [] && NoNul(chunks[0]) && |p.pending| + |chunks[0]| < RCVBUFSIZE && Fits(Recv(p, chunks[0]), chunks[1..])
  }

  class Connection {
    const buf: array<char>
    const temp: array<char>
    var numInvalid: nat
    var open: bool
    var sent: seq<Reply>
    ghost var text: string

    ghost predicate Valid()
      reads this, buf, temp
    {
      buf != temp && buf.Length == temp.Length == RCVBUFSIZE && Holds(buf, text)
    }

    /** What the connection amounts to when the server waits for the next chunk. */
    ghost function View(): Parse
      reads this
    {
      Parse(if open then text else [], numInvalid, open, sent)
    }

    constructor ()
      ensures Valid() && fresh(buf) && fresh(temp) && View() == Start()
    {
      buf := new char[RCVBUFSIZE](_ => NUL);
      temp := new char[RCVBUFSIZE](_ => NUL);
      numInvalid, open, sent, text := 0, true, [], [];
    }

    /** strlen(myBuffer). */
    method Len() returns (n: nat)
      requires Valid()
      ensures n == |text|
    {
      n := 0;
      while buf[n] != NUL
        invariant n <= |text| && forall i :: 0 <= i < n ==> buf[i] != NUL
        decreases RCVBUFSIZE - n
      {
        n := n + 1;
      }
      NulAfter(n);
    }

    lemma NulAfter(n: nat)
      requires Valid() && n <= |text| && buf[n] == NUL
      ensures n == |text|
    {
      assert forall i :: 0 <= i < |text| ==> buf[i] == text[i];
    }

    /** strncmp(myBuffer, word, n) == 0. */
    method StartsLike(word: string, n: nat) returns (same: bool)
      requires Valid() && 1 <= n <= |text|
      ensures same <==> text[..n] <= word
    {
      assert forall i :: 0 <= i < n ==> text[i] == buf[i];
      var i := 0;
      while i < n && i < |word| && buf[i] == word[i]
        invariant 0 <= i <= n && i <= |word| && text[..i] == word[..i]
      {
        i := i + 1;
      }
      if i == n {
        same := true;
      } else {
        same := false;
        assert text[..n][i] == buf[i];
      }
    }

    /** strcat(myBuffer, echoBuffer). */
    method Append(chunk: string)
      requires Valid() && NoNul(chunk) && |text| + |chunk| < RCVBUFSIZE
      modifies buf, this`text
      ensures Valid() && text == old(text) + chunk
    {
      var n := Len();
      var i := 0;
      while i < |chunk|
        invariant 0 <= i <= |chunk| && text == old(text)
        invariant Holds(buf, old(text) + chunk[..i])
      {
        buf[n + i] := chunk[i];
        i := i + 1;
        assert buf[..n + i] == old(text) + chunk[..i];
      }
      assert chunk[..i] == chunk;
      text := text + chunk;
    }

    /** bzero: every byte of the array is zero again. */
    static method Clear(a: array<char>)
      modifies a
      ensures Holds(a, []) || a.Length == 0
      ensures forall i :: 0 <= i < a.Length ==> a[i] == NUL
    {
      var i := 0;
      while i < a.Length
        invariant 0 <= i <= a.Length && forall j :: 0 <= j < i ==> a[j] == NUL
      {
        a[i] := NUL;
        i := i + 1;
      }
    }

    /** memmove or strncpy of n bytes between two arrays. */
    static method Copy(from: array<char>, start: nat, n: nat, to: array<char>)
      requires from != to && start + n <= from.Length && n <= to.Length
      modifies to
      ensures to[..n] == from[start..start + n]
      ensures forall i :: n <= i < to.Length ==> to[i] == old(to[i])
    {
      var i := 0;
      while i < n
        invariant 0 <= i <= n
        invariant to[..i] == from[start..start + i]
        invariant forall j :: i <= j < to.Length ==> to[j] == old(to[j])
      {
        to[i] := from[start + i];
        i := i + 1;
      }
    }

    /** manageBuffer: the first `k` bytes leave the buffer, by way of the second array. */
    method ManageBuffer(k: nat)
      requires Valid() && k <= |text|
      modifies buf, temp, this`text
      ensures Valid() && text == old(text)[k..]
    {
      var n := Len();
      Clear(temp);
      Copy(buf, k, n - k, temp);
      ghost var rest := text[k..];
      assert temp[..n - k] == rest by {
        assert buf[k..n] == buf[..n][k..];
      }
      Clear(buf);
      Copy(temp, 0, n - k, buf);
      assert buf[..n - k] == rest;
      text := rest;
    }

    /** The loop that adds up the digits in front of the space, in 32 bits. */
    method SumDigits(n: nat) returns (sum: int)
      requires Valid() && n <= |text| && AllDigits(text[..n])
      ensures sum == DigitSum(text[..n]) == Total(text[..n])
    {
      sum := 0;
      var i := 0;
      while i < n
        invariant 0 <= i <= n && sum == DigitSum(text[..i])
      {
        assert text[..i + 1][..i] == text[..i] && text[i] == buf[i];
        assert AllDigits(text[..i + 1]) by {
          assert forall j :: 0 <= j < i + 1 ==> text[..i + 1][j] == text[..n][j];
        }
        DigitSumBound(text[..i + 1]);
        sum := (sum + (buf[i] as int - '0' as int)) % WORD;
        i := i + 1;
      }
      DigitSumIsTotal(text[..n]);
    }

    /** The automaton state after the bytes before position `k`, and what becomes of it on the bytes from there on. */
    ghost function Outlook(k: nat): Parse
      requires k <= |text|
      reads this
    {
      if open then Run(Parse(text[..k], numInvalid, true, sent), text[k..]) else View()
    }

    /** The branches for a digit or a space. */
    method ScanDigitOrSpace(k: nat, ghost p: Parse) returns (next: nat)
      requires Valid() && open && 1 <= k <= |text| && p == Parse(text[..k - 1], numInvalid, true, sent) && Inv(p)
      requires (IsDigit(text[k - 1]) || text[k - 1] == ' ') && NoCommand(text[..k])
      modifies buf, temp, this`text, this`numInvalid, this`open, this`sent
      ensures Valid() && next <= |text| && text[next..] == old(text[k..]) && |text| - next < old(|text|) - (k - 1)
      ensures Feed(p, old(text[k - 1])) == Parse(if open then text[..next] else [], numInvalid, open, sent)
    {
      assert text[..k] == p.pending + [text[k - 1]];
      assert forall i :: 0 <= i < k ==> buf[i] == text[i];
      FeedDigitOrSpace(p, text[k - 1]);
      hide Feed;
      if (k > 1 && !IsDigit(buf[k - 2])) || (k == 1 && buf[k - 1] == ' ') {
        ManageBuffer(k);
        sent := sent + [Invalid];
        numInvalid := numInvalid + 1;
        open := numInvalid <= 2;
        next := 0;
      } else if buf[k - 1] == ' ' {
        DigitsBefore(p);
        var sum := SumDigits(k - 1);
        sent := sent + [Sum(sum)];
        ManageBuffer(k);
        numInvalid := 0;
        next := 0;
      } else {
        numInvalid := 0;
        next := k;
      }
    }

    /** The last branch: the byte at `k - 1` belongs to nothing. It is dropped if it stands alone, and looked at
        again if it only broke off what was pending. */
    method ScanInvalid(k: nat, ghost p: Parse)
      requires Valid() && open && 1 <= k <= |text| && p == Parse(text[..k - 1], numInvalid, true, sent)
      requires !IsDigit(text[k - 1]) && text[k - 1] != ' ' && NoCommand(text[..k])
      modifies buf, temp, this`text, this`numInvalid, this`open, this`sent
      ensures Valid() && text == old(text)[if k == 1 then 1 else k - 1..]
      ensures Reject(p) == Parse([], numInvalid, open, sent)
    {
      ManageBuffer(if k == 1 then 1 else k - 1);
      numInvalid := numInvalid + 1;
      sent := sent + [Invalid];
      open := numInvalid <= 2;
    }

    /** The branch of a word command: answer when the word is complete, otherwise wait for its rest. */
    method CompleteOrWait(k: nat, word: string, r: Reply) returns (next: nat)
      requires Valid() && open && 1 <= k <= |text|
      modifies buf, temp, this`text, this`numInvalid, this`sent
      ensures Valid() && next <= |text| && text[next..] == old(text[k..]) && |text| - next < old(|text|) - (k - 1)
      ensures var p := Parse(old(text[..k - 1]), old(numInvalid), true, old(sent));
        Parse(text[..next], numInvalid, true, sent) == if k == |word| then Answer(p, r) else Wait(p, old(text[..k]))
    {
      if k == |word| {
        sent := sent + [r];
        ManageBuffer(k);
        next := 0;
      } else {
        next := k;
      }
      numInvalid := 0;
    }

    /** The branch of exit: a last reply, both buffers zeroed. */
    method Quit()
      requires Valid()
      modifies buf, temp, this`text, this`numInvalid, this`open, this`sent
      ensures Valid() && !open && numInvalid == 0 && sent == old(sent) + [Bye] && text == []
    {
      sent := sent + [Bye];
      Clear(temp);
      Clear(buf);
      text := [];
      numInvalid, open := 0, false;
    }

    /** One turn of the scanning loop: either the connection goes on at `next`, or it is closed. */
    method Scan(k: nat, ghost p: Parse) returns (next: nat)
      requires Valid() && open && 1 <= k <= |text| && p == Parse(text[..k - 1], numInvalid, true, sent) && Inv(p)
      modifies buf, temp, this`text, this`numInvalid, this`open, this`sent
      ensures Valid() && next <= |text| && (open ==> |text| - next < old(|text|) - (k - 1) || (k > 1 && next == 0 && |text| == old(|text|) - (k - 1)))
      ensures open ==> Inv(Parse(text[..next], numInvalid, true, sent))
      ensures Outlook(next) == old(Run(p, text[k - 1..]))
    {
      ghost var c, rest := text[k - 1], text[k..];
      ghost var w := text[..k];
      assert w == p.pending + [c] && text[k - 1..] == [c] + rest && buf[k - 1] == c;
      RunFirst(p, c, rest);
      FeedKeeps(p, c);
      var uptime := StartsLike("uptime", k);
      var load := StartsLike("load", k);
      var exit := StartsLike("exit", k);
      hide Run, Inv, IsDigit;
      if uptime {
        FeedUptime(p, c);
        hide Feed;
        next := CompleteOrWait(k, "uptime", Uptime);
      } else if load {
        FeedLoad(p, c);
        hide Feed;
        next := CompleteOrWait(k, "load", Load);
      } else if exit {
        FeedExit(p, c);
        hide Feed;
        Quit();
        next := 0;
        RunClosed(Feed(p, c), rest);
      } else if IsDigit(buf[k - 1]) || buf[k - 1] == ' ' {
        hide Feed;
        next := ScanDigitOrSpace(k, p);
        if !open { RunClosed(Feed(p, c), rest); }
      } else {
        FeedInvalid(p, c);
        hide Feed;
        ScanInvalid(k, p);
        next := 0;
        if k > 1 { RunFirst(Reject(p), c, rest); }
        RejectKeeps(p);
        if !open { RunClosed(Reject(p), [c] + rest); RunClosed(Reject(p), rest); }
      }
      assert text[..0] == [];
    }

    /** The scanning loop after a recv: the whole text, from its first byte. */
    method ScanAll(ghost p: Parse)
      requires Valid() && open && p == Parse([], numInvalid, true, sent) && Inv(p)
      modifies buf, temp, this`text, this`numInvalid, this`open, this`sent
      ensures Valid() && View() == old(Run(p, text)) && Inv(View())
    {
      hide Run, Inv;
      ghost var end := Run(p, text);
      var next: nat := 0;
      assert text[..0] == [] && text[0..] == text;
      var n := Len();
      while next + 1 <= n
        invariant Valid() && open && next <= |text| == n && Outlook(next) == end
        invariant Inv(Parse(text[..next], numInvalid, true, sent))
        decreases |text| - next, |text|
      {
        next := Scan(next + 1, Parse(text[..next], numInvalid, true, sent));
        if !open {
          ClosedInv(View());
          return;
        }
        n := Len();
      }
      RunNothing(Parse(text[..next], numInvalid, true, sent));
      assert text[..next] == text && text[next..] == [];
    }

    /** HandleTCPClient: `chunks` is what recv returns, one after another, until the peer ends the stream. */
    method HandleTCPClient(chunks: seq<string>)
      requires Valid() && View() == Start() && Fits(Start(), chunks)
      modifies this, buf, temp
      ensures Valid() && View() == Run(Start(), Flat(chunks))
    {
      ghost var p := Start();
      var i := 0;
      while i < |chunks| && open
        invariant 0 <= i <= |chunks| && Valid() && View() == p && Inv(p)
        invariant RecvAll(p, chunks[i..]) == RecvAll(Start(), chunks)
        invariant Fits(p, chunks[i..])
      {
        assert chunks[i..][0] == chunks[i] && chunks[i..][1..] == chunks[i + 1..];
        p := Recv(p, chunks[i]);
        Append(chunks[i]);
        ScanAll(Parse([], numInvalid, true, sent));
        i := i + 1;
      }
      RecvAllIsRun(p, chunks[i..]);
      RecvAllIsRun(Start(), chunks);
      if !open { RunClosed(p, Flat(chunks[i..])); }
    }
  }

  lemma ClosedInv(p: Parse)
    requires !p.open && p.pending == []
    ensures Inv(p)
  {
  }

  lemma RunNothing(p: Parse)
    ensures Run(p, []) == p
  {
  }

  lemma RunFirst(p: Parse, c: char, rest: string)
    ensures Run(p, [c] + rest) == Run(Feed(p, c), rest)
  {
    assert ([c] + rest)[1..] == rest;
  }

  lemma FeedUptime(p: Parse, c: char)
    requires p.open && p.pending + [c] <= "uptime"
    ensures Feed(p, c) == if |p.pending| + 1 == |"uptime"| then Answer(p, Uptime) else Wait(p, p.pending + [c])
  {
  }

  lemma FeedLoad(p: Parse, c: char)
    requires p.open && !(p.pending + [c] <= "uptime") && p.pending + [c] <= "load"
    ensures Feed(p, c) == if |p.pending| + 1 == |"load"| then Answer(p, Load) else Wait(p, p.pending + [c])
  {
  }

  lemma FeedExit(p: Parse, c: char)
    requires p.open && !(p.pending + [c] <= "uptime") && !(p.pending + [c] <= "load") && p.pending + [c] <= "exit"
    ensures Feed(p, c) == Answer(p, Bye).(open := false)
  {
  }

  lemma FeedInvalid(p: Parse, c: char)
    requires p.open && NoCommand(p.pending + [c]) && !IsDigit(c) && c != ' '
    ensures Feed(p, c) == if p.pending == [] then Reject(p) else Feed(Reject(p), c)
  {
  }

  lemma RejectKeeps(p: Parse)
    requires Inv(p)
    ensures Inv(Reject(p))
  {
  }

  predicate NoCommand(w: string) {
    !(w <= "uptime") && !(w <= "load") && !(w <= "exit")
  }

  lemma FeedDigitOrSpace(p: Parse, c: char)
    requires p.open && NoCommand(p.pending + [c]) && (IsDigit(c) || c == ' ')
    ensures Feed(p, c) ==
      if (p.pending != [] && !IsDigit(p.pending[|p.pending| - 1])) || (p.pending == [] && c == ' ') then Reject(p)
      else if c == ' ' then Answer(p, Sum(DigitSum(p.pending))) else Wait(p, p.pending + [c])
  {
  }

  lemma DigitsBefore(p: Parse)
    requires Inv(p) && p.pending != [] && IsDigit(p.pending[|p.pending| - 1])
    ensures AllDigits(p.pending)
  {
    var last := |p.pending| - 1;
    assert p.pending <= "uptime" ==> p.pending[last] == "uptime"[last];
    assert p.pending <= "load" ==> p.pending[last] == "load"[last];
  }
}
