// The nested CONNECT handshakes that open a TCP connection into a guest, one with the hypervisor's
// vsock socket and one with the agent behind it, over a connection that buffers what it reads.
module Connect {
  import opened Bytes
  import opened FieldLists
  import opened StreamWorkers
  import opened Wrappers

  const NEWLINE: Byte := 10
  const SPACE: Byte := 32

  predicate Latin(s: string) { forall i :: 0 <= i < |s| ==> (s[i] as int) < 256 }

  function Octets(s: string): (t: seq<Byte>)
    requires Latin(s)
    ensures |t| == |s|
  {
    seq(|s|, i requires 0 <= i < |s| => s[i] as int)
  }

  predicate Blank(b: Byte) { b == SPACE || 9 <= b <= 13 }

  // ---- Numbers ----

  predicate Digit(b: Byte) { 48 <= b <= 57 }

  function Itoa(n: nat): (s: seq<Byte>)
    ensures |s| > 0 && forall i :: 0 <= i < |s| ==> Digit(s[i])
  {
    if n < 10 then [48 + n] else Itoa(n / 10) + [48 + n % 10]
  }

  function DigitsValue(s: seq<Byte>): Option<nat> {
    if s == [] then Some(0)
    else
      var k := |s| - 1;
      var high := DigitsValue(s[..k]);
      if high.None? || !Digit(s[k]) then None else Some(high.value * 10 + (s[k] as int - 48))
  }

  /** An optional sign and at least one digit. */
  function Atoi(s: seq<Byte>): Option<int> {
    var signed := s != [] && (s[0] == 43 || s[0] == 45);
    var digits := if signed then s[1..] else s;
    var v := DigitsValue(digits);
    if digits == [] || v.None? then None
    else
      var value: int := v.value;
      Some(if signed && s[0] == 45 then -value else value)
  }

  lemma {:induction false} DigitsReadBack(n: nat)
    ensures DigitsValue(Itoa(n)) == Some(n)
  {
    if n < 10 {
      assert [48 + n as Byte][..0] == [];
    } else {
      DigitsReadBack(n / 10);
      var s := Itoa(n / 10) + [48 + n % 10];
      assert s[..|s| - 1] == Itoa(n / 10);
    }
  }

  lemma AtoiOfItoa(n: nat)
    ensures Atoi(Itoa(n)) == Some(n)
  {
    DigitsReadBack(n);
    assert Digit(Itoa(n)[0]);
  }

  /** Blanks, digits and signs by their characters. */
  lemma ByteClasses(b: Byte)
    ensures Blank(b) <==> var c := b as char; c == ' ' || c == '\t' || c == '\n' || c == '\U{B}' || c == '\U{C}' || c == '\r'
    ensures Digit(b) <==> '0' <= b as char <= '9'
  {
  }

  lemma SignsAreRead(n: nat, sign: Byte)
    ensures var r := Atoi([sign] + Itoa(n));
            && (sign as char == '+' ==> r.Some? && r.value == n)
            && (sign as char == '-' ==> r.Some? && r.value + n == 0)
            && (sign as char != '+' && sign as char != '-' && !Digit(sign) ==> r.None?)
  {
    var s := [sign] + Itoa(n);
    assert s[1..] == Itoa(n);
    DigitsReadBack(n);
    if !Digit(sign) {
      NotDigits(s, 0);
    }
  }

  lemma {:induction false} NotDigits(s: seq<Byte>, i: nat)
    requires i < |s| && !Digit(s[i])
    ensures DigitsValue(s).None?
    decreases |s|
  {
    if i < |s| - 1 {
      NotDigits(s[..|s| - 1], i);
    }
  }

  // ---- The lines ----

  function VsockLine(port: nat): seq<Byte> { Octets("CONNECT ") + Itoa(port) + [NEWLINE] }

  function ConnectLine(port: nat): seq<Byte> { Octets("CONNECT 127.0.0.1 ") + Itoa(port) + [NEWLINE] }

  /** How the hypervisor reads the line: two words, the second a number, and nothing behind them. */
  lemma VsockLineReads(port: nat)
    ensures var line := VsockLine(port);
            && line[|line| - 1] == 10 && 10 !in line[..|line| - 1]
            && var words := Fields(line, Blank);
               && |words| == 2 && words[0] == Octets("CONNECT") && Atoi(words[1]) == Some(port)
  {
    var word := Octets("CONNECT");
    var words := [word, Itoa(port)];
    forall i | 0 <= i < |word| ensures !Blank(word[i]) && word[i] != 10 {
      assert word[i] == "CONNECT"[i] as int;
    }
    assert Solid(Itoa(port), Blank) && Solid(word, Blank);
    assert AllSolid(words, Blank);
    FieldsOfJoin(words, Blank, SPACE);
    var text := word + [SPACE] + Itoa(port);
    assert words[1..] == [Itoa(port)] && Join(words[1..], SPACE) == Itoa(port);
    assert Octets("CONNECT ") == word + [SPACE];
    assert Join(words, SPACE) == text && VsockLine(port) == text + [NEWLINE];
    FieldsBeforeBlank(text, Blank, [], NEWLINE);
    AtoiOfItoa(port);
    assert VsockLine(port)[..|text|] == text;
    forall b | b in text ensures b != 10 {
    }
  }

  const CONNECT_WORD := Octets("CONNECT")
  const LOOPBACK := Octets("127.0.0.1")
  const OK_LINE := Octets("OK\n")

  function ParseConnectLine(line: seq<Byte>): Option<nat> {
    var fields := Fields(line, Blank);
    if |fields| != 3 || fields[0] != CONNECT_WORD || fields[1] != LOOPBACK then None
    else
      var port := Atoi(fields[2]);
      if port.None? || port.value < 1 || port.value > 65535 then None else Some(port.value)
  }

  /** The agent reads a printed port back exactly when it is a port number. */
  lemma LineParsesBack(port: nat)
    ensures ParseConnectLine(ConnectLine(port)) == if 1 <= port <= 65535 then Some(port) else None
  {
    var fields := [CONNECT_WORD, LOOPBACK, Itoa(port)];
    var text := Join(fields, SPACE);
    WordsAreSolid();
    assert Solid(Itoa(port), Blank);
    assert AllSolid(fields, Blank);
    FieldsOfJoin(fields, Blank, SPACE);
    FieldsBeforeBlank(text, Blank, [], NEWLINE);
    JoinedLine(port);
    AtoiOfItoa(port);
  }

  lemma WordsAreSolid()
    ensures Solid(CONNECT_WORD, Blank) && Solid(LOOPBACK, Blank)
  {
    forall i | 0 <= i < |CONNECT_WORD| ensures !Blank(CONNECT_WORD[i]) {
      assert CONNECT_WORD[i] == "CONNECT"[i] as int;
    }
    forall i | 0 <= i < |LOOPBACK| ensures !Blank(LOOPBACK[i]) {
      assert LOOPBACK[i] == "127.0.0.1"[i] as int;
    }
  }

  lemma JoinedLine(port: nat)
    ensures ConnectLine(port) == Join([CONNECT_WORD, LOOPBACK, Itoa(port)], SPACE) + [NEWLINE]
  {
    var head := Octets("CONNECT 127.0.0.1 ");
    assert head == CONNECT_WORD + [SPACE] + LOOPBACK + [SPACE];
    var last := [Itoa(port)];
    assert [LOOPBACK, Itoa(port)][1..] == last && [CONNECT_WORD, LOOPBACK, Itoa(port)][1..] == [LOOPBACK, Itoa(port)];
    assert Join(last, SPACE) == Itoa(port);
    assert Join([LOOPBACK, Itoa(port)], SPACE) == LOOPBACK + [SPACE] + Itoa(port);
  }

  // ---- What each side sees of a stream ----

  /** A stream cut behind its first newline. */
  function FirstLine(s: seq<Byte>): Option<(seq<Byte>, seq<Byte>)> {
    if s == [] then None
    else if s[0] == NEWLINE then Some(([NEWLINE], s[1..]))
    else
      var r := FirstLine(s[1..]);
      if r.None? then None else Some(([s[0]] + r.value.0, r.value.1))
  }

  lemma {:induction false} FirstLineCuts(s: seq<Byte>)
    ensures FirstLine(s).Some? <==> NEWLINE in s
    ensures FirstLine(s).Some? ==> FirstLine(s).value.0 + FirstLine(s).value.1 == s
  {
    if s != [] && s[0] != NEWLINE {
      FirstLineCuts(s[1..]);
    }
  }

  lemma {:induction false} FirstLineOf(line: seq<Byte>, rest: seq<Byte>)
    requires NEWLINE !in line
    ensures FirstLine(line + [NEWLINE] + rest) == Some((line + [NEWLINE], rest))
  {
    var s := line + [NEWLINE] + rest;
    if line == [] {
      assert s[1..] == rest && line + [NEWLINE] == [NEWLINE];
    } else {
      FirstLineOf(line[1..], rest);
      assert s[1..] == line[1..] + [NEWLINE] + rest;
      assert [line[0]] + (line[1..] + [NEWLINE]) == line + [NEWLINE];
    }
  }

  /** The hypervisor accepts with "OK", alone or followed by more words. */
  predicate AcceptsVsock(line: seq<Byte>) {
    var status := Trim(line, Blank);
    status == OK_LINE[..2] || OK_LINE[..2] + [SPACE] <= status
  }

  /** Letter by letter. */
  lemma AcceptsVsockIff(line: seq<Byte>)
    ensures var status := Trim(line, Blank);
            AcceptsVsock(line) <==>
              2 <= |status| && status[0] as char == 'O' && status[1] as char == 'K' && (|status| == 2 || status[2] as char == ' ')
    ensures OK_LINE == [79, 75, 10]
  {
    assert OK_LINE == [79, 75, 10];
    assert OK_LINE[..2] == [79, 75];
  }

  /** What the host has left to read once both handshakes are through. */
  function HostSees(s: seq<Byte>): Option<seq<Byte>> {
    var r := FirstLine(s);
    if r.None? || !AcceptsVsock(r.value.0) || !(OK_LINE <= r.value.1) then None else Some(r.value.1[3..])
  }

  /** The port the agent dials, and what it then passes on. */
  function AgentSees(s: seq<Byte>): Option<(nat, seq<Byte>)> {
    var r := FirstLine(s);
    if r.None? then None
    else
      var port := ParseConnectLine(r.value.0);
      if port.None? then None else Some((port.value, r.value.1))
  }

  /** Towards the guest: whatever follows the line is passed on as it is, whole. */
  lemma TowardsGuest(port: nat, payload: seq<Byte>)
    requires 1 <= port <= 65535
    ensures AgentSees(ConnectLine(port) + payload) == Some((port, payload))
  {
    hide ParseConnectLine;
    var text := Octets("CONNECT 127.0.0.1 ") + Itoa(port);
    forall i | 0 <= i < |text| ensures text[i] != NEWLINE {
      if i < 18 {
        assert text[i] == "CONNECT 127.0.0.1 "[i] as int;
      } else {
        assert Digit(Itoa(port)[i - 18]);
      }
    }
    FirstLineOf(text, payload);
    LineParsesBack(port);
  }

  /** Towards the host: the two replies are taken off and nothing else. */
  lemma TowardsHost(reply: seq<Byte>, payload: seq<Byte>)
    requires NEWLINE !in reply && AcceptsVsock(reply + [NEWLINE])
    ensures HostSees(reply + [NEWLINE] + OK_LINE + payload) == Some(payload)
  {
    hide AcceptsVsock;
    FirstLineOf(reply, OK_LINE + payload);
    assert reply + [NEWLINE] + OK_LINE + payload == reply + [NEWLINE] + (OK_LINE + payload);
    assert (OK_LINE + payload)[3..] == payload;
  }

  // ---- The connections ----

  /** A connection whose reads go through a buffer; writes go past it. */
  class BufferedConn {
    const conn: Conn
    var buffer: seq<Byte>

    constructor (conn: Conn)
      ensures this.conn == conn && buffer == []
    {
      this.conn := conn;
      buffer := [];
    }

    /** Everything that is still to be read. */
    ghost function Rest(): seq<Byte>
      reads this, conn
    {
      buffer + conn.unread
    }

    /** Fails only when there is nothing more to come. */
    method NextByte() returns (b: Byte, ok: bool)
      modifies this`buffer, conn`unread
      ensures if ok then old(Rest()) == [b] + Rest() else old(Rest()) == [] == Rest()
    {
      b, ok := 0, true;
      if buffer == [] {
        var status;
        buffer, status := conn.Read(4096);
      }
      if buffer == [] {
        ok := false;
      } else {
        b, buffer := buffer[0], buffer[1..];
      }
    }

    /** Reads up to and with the next newline, however the bytes come in. */
    method ReadLine() returns (line: seq<Byte>, ok: bool)
      modifies this`buffer, conn`unread
      ensures ok <==> FirstLine(old(Rest())).Some?
      ensures ok ==> FirstLine(old(Rest())) == Some((line, Rest()))
    {
      hide FirstLine;
      ghost var whole := Rest();
      FirstLineCuts(whole);
      line := [];
      var b;
      while true
        invariant line + Rest() == whole && NEWLINE !in line
        decreases |Rest()|
      {
        b, ok := NextByte();
        if !ok {
          assert line == whole;
          return;
        }
        if b == NEWLINE {
          FirstLineOf(line, Rest());
          assert line + [NEWLINE] + Rest() == whole;
          line := line + [b];
          return;
        }
        line := line + [b];
      }
    }

    /** Hands out what is buffered first. */
    method Read(max: nat) returns (chunk: seq<Byte>, status: ReadStatus)
      requires 0 < max
      modifies this`buffer, conn`unread
      ensures old(Rest()) == chunk + Rest() && |chunk| <= max
      ensures status.Good? ==> chunk != []
      ensures !status.Good? ==> Rest() == [] && (status.Eof? <==> conn.ending.AtEof?)
    {
      status := Good;
      if buffer == [] {
        if max >= 4096 {
          chunk, status := conn.Read(max);
          return;
        }
        buffer, status := conn.Read(4096);
        if buffer != [] {
          status := Good;
        }
      }
      var n := Min(max, |buffer|);
      chunk, buffer := buffer[..n], buffer[n..];
    }

    method ReadExactly(n: nat) returns (data: seq<Byte>, ok: bool)
      modifies this`buffer, conn`unread
      ensures ok <==> n <= |old(Rest())|
      ensures ok ==> |data| == n && old(Rest()) == data + Rest()
    {
      data, ok := [], true;
      while |data| < n
        invariant |data| <= n && old(Rest()) == data + Rest()
        decreases n - |data|
      {
        var chunk, status := Read(n - |data|);
        data := data + chunk;
        if !status.Good? && |data| < n {
          return data, false;
        }
      }
    }
  }

  method DialVsock(conn: Conn, port: nat) returns (c: BufferedConn, ok: bool)
    modifies conn`unread, conn`outcomes, conn`written, conn`faults
    ensures fresh(c) && c.conn == conn
    ensures var run := RunWrites(old(conn.outcomes), |VsockLine(port)|, true);
            var r := FirstLine(old(conn.unread));
            && (ok <==> run.ok && r.Some? && AcceptsVsock(r.value.0))
            && (ok ==> c.Rest() == r.value.1) && conn.outcomes == run.rest
    ensures ok ==> conn.written == old(conn.written) + VsockLine(port)
    ensures conn.written <= old(conn.written) + VsockLine(port)
  {
    c := new BufferedConn(conn);
    assert c.Rest() == conn.unread;
    GoWritesAllOrFails(conn.outcomes, |VsockLine(port)|);
    ok := WriteFull(conn, VsockLine(port));
    if ok {
      var line;
      line, ok := c.ReadLine();
      ok := ok && AcceptsVsock(line);
    }
  }

  /** The second handshake, on the same connection. */
  method DialGuest(c: BufferedConn, port: nat) returns (ok: bool)
    modifies c, c.conn`unread, c.conn`outcomes, c.conn`written, c.conn`faults
    ensures ok <==> RunWrites(old(c.conn.outcomes), |ConnectLine(port)|, true).ok && OK_LINE <= old(c.Rest())
    ensures ok ==> c.conn.written == old(c.conn.written) + ConnectLine(port)
    ensures ok ==> OK_LINE <= old(c.Rest()) && c.Rest() == old(c.Rest())[3..]
  {
    GoWritesAllOrFails(c.conn.outcomes, |ConnectLine(port)|);
    ok := WriteFull(c.conn, ConnectLine(port));
    if ok {
      var reply;
      reply, ok := c.ReadExactly(3);
      ok := ok && reply == OK_LINE;
    }
  }

  /** Both handshakes in a row: what is left to read is what the guest sent behind them, however its
      bytes were cut up or run together. It succeeds exactly when both lines go out and both replies
      accept. */
  method DialThroughHypervisor(conn: Conn, guestPort: nat, port: nat) returns (c: BufferedConn, ok: bool)
    modifies conn`unread, conn`outcomes, conn`written, conn`faults
    ensures fresh(c) && c.conn == conn
    ensures var first := RunWrites(old(conn.outcomes), |VsockLine(guestPort)|, true);
            var second := RunWrites(first.rest, |ConnectLine(port)|, true);
            ok <==> first.ok && second.ok && HostSees(old(conn.unread)).Some?
    ensures ok ==> conn.written == old(conn.written) + VsockLine(guestPort) + ConnectLine(port)
    ensures ok ==> HostSees(old(conn.unread)) == Some(c.Rest())
  {
    c, ok := DialVsock(conn, guestPort);
    if ok {
      ok := DialGuest(c, port);
    }
  }

  /** The agent: it answers only once the target is reached, and relays from the same buffer.
      `reachable` says whether the target can be dialed. */
  method HandleConnection(conn: Conn, reachable: bool) returns (c: BufferedConn, port: nat, ok: bool)
    modifies conn`unread, conn`outcomes, conn`written, conn`faults
    ensures fresh(c) && c.conn == conn
    ensures ok <==> AgentSees(old(conn.unread)).Some? && reachable && RunWrites(old(conn.outcomes), |OK_LINE|, true).ok
    ensures ok ==> AgentSees(old(conn.unread)) == Some((port, c.Rest())) && conn.written == old(conn.written) + OK_LINE
    ensures AgentSees(old(conn.unread)).None? || !reachable ==> conn.written == old(conn.written)
  {
    port := 0;
    c := new BufferedConn(conn);
    assert c.Rest() == conn.unread;
    var line;
    line, ok := c.ReadLine();
    if !ok {
      return;
    }
    var parsed := ParseConnectLine(line);
    if parsed.None? || !reachable {
      ok := false;
      return;
    }
    port := parsed.value;
    GoWritesAllOrFails(conn.outcomes, |OK_LINE|);
    ok := WriteFull(conn, OK_LINE);
  }
}
