// The server screen: the text fields that configure the connection to an
// external server (IP:port and polling time) and the internal server's port,
// the checks their edits go through, and the arguments the Connect and Start
// buttons derive from them.

module ServerScreen {
  import opened Common

  // ------------------------------------------------------------------
  // Digit strings of one to three characters

  function Digit(c: char): (d: nat)
    requires IsDigit(c)
    ensures d < 10
  {
    c as int - '0' as int
  }

  lemma DigitsValue1(s: string)
    requires |s| == 1 && AllDigits(s)
    ensures DigitsValue(s) == Digit(s[0])
  {
    assert s[..0] == [];
  }

  lemma DigitsValue2(s: string)
    requires |s| == 2 && AllDigits(s)
    ensures DigitsValue(s) == 10 * Digit(s[0]) + Digit(s[1])
  {
    DigitsValue1(s[..1]);
  }

  lemma DigitsValue3(s: string)
    requires |s| == 3 && AllDigits(s)
    ensures DigitsValue(s) == 100 * Digit(s[0]) + 10 * Digit(s[1]) + Digit(s[2])
  {
    DigitsValue2(s[..2]);
  }

  // ------------------------------------------------------------------
  // The IP:port pattern

  /** One octet of the address pattern: `25[0-5]`, `2[0-4]\d` or `1?\d?\d`. */
  predicate IsOctet(s: string) {
    (|s| == 3 && s[0] == '2' && s[1] == '5' && '0' <= s[2] <= '5')
    || (|s| == 3 && s[0] == '2' && '0' <= s[1] <= '4' && IsDigit(s[2]))
    || (|s| == 3 && s[0] == '1' && IsDigit(s[1]) && IsDigit(s[2]))
    || (|s| == 2 && IsDigit(s[0]) && IsDigit(s[1]))
    || (|s| == 1 && IsDigit(s[0]))
  }

  /** The octet pattern accepts exactly the one- to three-digit numbers up to 255,
      where a three-digit one does not start with 0 (two-digit "05" is accepted). */
  lemma OctetIsByteValue(s: string)
    ensures IsOctet(s) <==>
      (AllDigits(s) && 1 <= |s| <= 3 && DigitsValue(s) <= 255 && (|s| == 3 ==> s[0] != '0'))
  {
    if 1 <= |s| <= 3 && AllDigits(s) {
      if |s| == 1 {
        DigitsValue1(s);
      } else if |s| == 2 {
        DigitsValue2(s);
      } else {
        DigitsValue3(s);
      }
    }
  }

  const MAX_PORT_DIGITS: nat := 5

  /** The port part of the pattern: one to five digits. */
  predicate IsPortText(s: string) {
    AllDigits(s) && 1 <= |s| <= MAX_PORT_DIGITS
  }

  /** The whole-string match of the IP:port pattern: four octets joined by dots,
      a colon, and the port digits. Octets and port hold no colon, so the host is
      everything before the first colon. */
  predicate IsIpPort(ip: string) {
    var (host, port) := SplitFirst(ip, ':');
    port.Some? && IsPortText(port.value)
    && var octets := Split(host, '.');
    |octets| == 4 && forall i :: 0 <= i < 4 ==> IsOctet(octets[i])
  }

  lemma OctetHasNoSeparator(s: string)
    requires IsOctet(s)
    ensures '.' !in s && ':' !in s
  {
  }

  /** Any four octets and a port text make an address the pattern accepts. */
  lemma {:induction false} IpPortOfParts(octets: seq<string>, port: string)
    requires |octets| == 4 && forall i :: 0 <= i < 4 ==> IsOctet(octets[i])
    requires IsPortText(port)
    ensures IsIpPort(Join(octets, ".") + ":" + port)
    ensures SplitFirst(Join(octets, ".") + ":" + port, ':') == (Join(octets, "."), Some(port))
  {
    var host := Join(octets, ".");
    forall i | 0 <= i < |octets|
      ensures '.' !in octets[i] && ':' !in octets[i]
    {
      OctetHasNoSeparator(octets[i]);
    }
    JoinNoChar(octets, ".", ':');
    SplitFirstAt(host, ':', port);
    SplitJoin(octets, '.');
  }

  /** Every address the pattern accepts is four octets joined by dots, a colon
      and a port text. */
  lemma IpPortHasParts(ip: string)
    requires IsIpPort(ip)
    ensures exists octets: seq<string>, port: string ::
      |octets| == 4 && (forall i :: 0 <= i < 4 ==> IsOctet(octets[i]))
      && IsPortText(port) && ip == Join(octets, ".") + ":" + port
  {
    var (host, port) := SplitFirst(ip, ':');
    var octets := Split(host, '.');
    JoinSplit(host, '.');
    assert ip == Join(octets, ".") + ":" + port.value;
  }

  /** Parts free of separators make an accepted address exactly when they are
      four octets and a port text. */
  lemma IpPortOfPartsIff(octets: seq<string>, port: string)
    requires |octets| >= 1 && ':' !in port
    requires forall i :: 0 <= i < |octets| ==> '.' !in octets[i] && ':' !in octets[i]
    ensures IsIpPort(Join(octets, ".") + ":" + port) <==>
      |octets| == 4 && (forall i :: 0 <= i < 4 ==> IsOctet(octets[i])) && IsPortText(port)
  {
    var host := Join(octets, ".");
    JoinNoChar(octets, ".", ':');
    SplitFirstAt(host, ':', port);
    SplitJoin(octets, '.');
  }

  lemma Join4(a: string, b: string, c: string, d: string)
    ensures Join([a, b, c, d], ".") == a + "." + b + "." + c + "." + d
  {
    assert [c, d][1..] == [d];
    assert Join([c, d], ".") == c + "." + d;
    assert [b, c, d][1..] == [c, d];
    assert Join([b, c, d], ".") == b + "." + (c + "." + d);
    assert [a, b, c, d][1..] == [b, c, d];
    assert Join([a, b, c, d], ".") == a + "." + (b + "." + (c + "." + d));
  }

  /** The examples below are proved in two steps kept apart: the parts are
      accepted (or not), and the parts spell the literal address. */
  lemma IpPortAccepts()
    ensures IsIpPort("192.168.0.1:8080")
  {
    IpPortOfParts(["192", "168", "0", "1"], "8080");
    AcceptedSpelling();
  }

  lemma AcceptedSpelling()
    ensures Join(["192", "168", "0", "1"], ".") + ":" + "8080" == "192.168.0.1:8080"
  {
    Join4("192", "168", "0", "1");
  }

  /** The saved default address matches the pattern. */
  lemma IpPortAcceptsDefault()
    ensures IsIpPort("0.0.0.0:0000")
  {
    IpPortOfParts(["0", "0", "0", "0"], "0000");
    DefaultSpelling();
  }

  lemma DefaultSpelling()
    ensures Join(["0", "0", "0", "0"], ".") + ":" + "0000" == "0.0.0.0:0000"
  {
    Join4("0", "0", "0", "0");
  }

  lemma IpPortRejectsLargeOctet()
    ensures !IsIpPort("999.999.1.1:80")
  {
    LargeOctetParts();
    LargeOctetSpelling();
  }

  lemma LargeOctetParts()
    ensures !IsIpPort(Join(["999", "999", "1", "1"], ".") + ":" + "80")
  {
    var bad := ["999", "999", "1", "1"];
    IpPortOfPartsIff(bad, "80");
    assert !IsOctet(bad[0]);
  }

  lemma LargeOctetSpelling()
    ensures Join(["999", "999", "1", "1"], ".") + ":" + "80" == "999.999.1.1:80"
  {
    Join4("999", "999", "1", "1");
  }

  lemma IpPortNeedsPort()
    ensures !IsIpPort("192.168.0.1")
  {
    assert ':' !in "192.168.0.1";
  }

  // ------------------------------------------------------------------
  // Edits of the external-server fields

  predicate IsIpChar(c: char) { IsDigit(c) || c == '.' || c == ':' }

  predicate AllIpChars(s: string) {
    forall i :: 0 <= i < |s| ==> IsIpChar(s[i])
  }

  /** The IP field takes an edit made only of digits, dots and colons and keeps
      its text otherwise (the rejection shows a toast). */
  function IpInput(current: string, value: string): (r: string)
    ensures AllIpChars(value) ==> r == value
    ensures !AllIpChars(value) ==> r == current
  {
    if AllIpChars(value) then value else current
  }

  /** The IP field never holds anything but digits, dots and colons once it starts so. */
  lemma IpInputKeepsIpChars(current: string, value: string)
    requires AllIpChars(current)
    ensures AllIpChars(IpInput(current, value))
    ensures IpInput(current, value) == value <==> (AllIpChars(value) || value == current)
  {
  }

  lemma IpInputRejectsLetters()
    ensures IpInput("192", "192a") == "192"
  {
    assert !IsIpChar("192a"[3]);
  }

  /** Every address the pattern accepts can be typed into the IP field. */
  lemma IpPortIsIpChars(ip: string)
    requires IsIpPort(ip)
    ensures AllIpChars(ip)
  {
    IpPortHasParts(ip);
    var octets: seq<string>, port: string :|
      |octets| == 4 && (forall i :: 0 <= i < 4 ==> IsOctet(octets[i]))
      && IsPortText(port) && ip == Join(octets, ".") + ":" + port;
    JoinOfIpChars(octets);
  }

  lemma {:induction false} JoinOfIpChars(octets: seq<string>)
    requires forall i :: 0 <= i < |octets| ==> IsOctet(octets[i])
    ensures AllIpChars(Join(octets, "."))
  {
    if |octets| > 1 {
      JoinOfIpChars(octets[1..]);
    }
  }

  const MAX_POLLING_MS: nat := 10000
  const MIN_POLLING_MS: nat := 10

  /** The polling check as written: a digits-only edit is parsed with toInt before
      it is compared with the maximum, and toInt throws on a value beyond the
      32-bit range; `None` stands for that exception. */
  function PollingAcceptsAsWritten(value: string): (r: Option<bool>)
    ensures r.None? <==> (AllDigits(value) && |value| > 0 && DigitsValue(value) > INT_MAX)
    ensures r == Some(true) ==> AllDigits(value) && (|value| == 0 || DigitsValue(value) <= MAX_POLLING_MS)
  {
    if !AllDigits(value) then Some(false)
    else if |value| == 0 then Some(true)
    else match ParseInt32(value)
      case None => None
      case Some(v) => Some(v <= MAX_POLLING_MS)
  }

  /** An eleven-digit entry reaches toInt and throws instead of showing the
      "Max polling time" message. */
  lemma PollingOverflowThrows()
    ensures PollingAcceptsAsWritten("99999999999") == None
  {
    var s := "99999999999";
    assert AllDigits(s);
    DigitsAtLeastLead(s);
    assert Pow10(10) == 10000000000;
  }

  /** The intended polling check: digits only, and the value at most the maximum. */
  predicate PollingAccepts(value: string) {
    AllDigits(value) && (|value| == 0 || DigitsValue(value) <= MAX_POLLING_MS)
  }

  /** Where the code as written does not throw, it decides as the intended check does;
      it throws exactly on digit strings beyond the 32-bit range, all of which the
      intended check rejects. */
  lemma PollingAsWrittenAgrees(value: string)
    ensures PollingAcceptsAsWritten(value).Some? ==> PollingAcceptsAsWritten(value).value == PollingAccepts(value)
    ensures PollingAcceptsAsWritten(value).None? ==> !PollingAccepts(value)
  {
  }

  /** The polling field after an edit. */
  function PollingInput(current: string, value: string): (r: string)
    ensures r == value || r == current
    ensures PollingAccepts(value) ==> r == value
  {
    if PollingAccepts(value) then value else current
  }

  /** Once the polling field holds an accepted text, every edit keeps it so, and
      the text then parses as a 32-bit integer. */
  lemma PollingInputKeepsAccepted(current: string, value: string)
    requires PollingAccepts(current)
    ensures PollingAccepts(PollingInput(current, value))
    ensures var p := PollingInput(current, value);
      |p| == 0 || ParseInt32(p) == Some(DigitsValue(p) as int)
  {
  }

  /** The error flag under the polling field: a non-empty value below the minimum.
      toInt must not throw here, which an accepted field text guarantees. */
  function PollingError(p: string): (r: bool)
    requires |p| == 0 || ParseInt32(p).Some?
    ensures r ==> |p| > 0 && ParseInt32(p).value < MIN_POLLING_MS
  {
    |p| > 0 && ParseInt32(p).value < MIN_POLLING_MS
  }

  lemma PollingErrorOfAccepted(p: string)
    requires PollingAccepts(p)
    ensures |p| == 0 || ParseInt32(p).Some?
    ensures PollingError(p) <==> (|p| > 0 && DigitsValue(p) < MIN_POLLING_MS)
  {
  }

  // ------------------------------------------------------------------
  // Connect

  const LONG_MIN: int := -0x8000_0000_0000_0000
  const LONG_MAX: int := 0x7FFF_FFFF_FFFF_FFFF

  predicate IsInt64(n: int) { LONG_MIN <= n <= LONG_MAX }

  /** Kotlin's toLongOrNull: an optional sign and decimal digits within the
      64-bit range. */
  function ParseInt64(s: string): (r: Option<int>)
    ensures r.Some? ==> IsInt64(r.value)
    ensures AllDigits(s) && |s| > 0 && DigitsValue(s) <= LONG_MAX ==> r == Some(DigitsValue(s) as int)
    ensures |s| == 0 ==> r.None?
  {
    if |s| == 0 then None
    else if s[0] == '-' || s[0] == '+' then
      if |s| == 1 || !AllDigits(s[1..]) then None
      else
        var v: int := if s[0] == '-' then 0 - (DigitsValue(s[1..]) as int) else DigitsValue(s[1..]);
        if IsInt64(v) then Some(v) else None
    else if AllDigits(s) && IsInt64(DigitsValue(s)) then Some(DigitsValue(s))
    else None
  }

  /** What the Connect button hands to the connection manager. */
  datatype ConnectArgs = ConnectArgs(host: string, port: int, pollingMs: int)

  /** Connect: nothing unless the field matches the IP:port pattern (a toast says
      "Invalid IP"); otherwise the host before the colon, the port digits' value,
      and the polling time, 0 when it does not parse. */
  function Connect(ip: string, pollingTime: string): (r: Option<ConnectArgs>)
    ensures r.Some? <==> IsIpPort(ip)
    ensures r.Some? ==> ':' !in r.value.host && 0 <= r.value.port <= 99999
    ensures r.Some? ==> IsInt64(r.value.pollingMs)
  {
    if !IsIpPort(ip) then None
    else
      var parts := SplitFirst(ip, ':');
      SubstringAfterFirst(parts.0, ':', parts.1.value);
      DigitsAtMostFive(parts.1.value);
      Some(ConnectArgs(
        SubstringBefore(ip, ':'),
        DigitsValue(SubstringAfter(ip, ':')),
        match ParseInt64(pollingTime) case Some(v) => v case None => 0))
  }

  lemma DigitsAtMostFive(s: string)
    requires IsPortText(s)
    ensures DigitsValue(s) <= 99999
  {
    DigitsBelowPower(s);
    Pow10Monotone(|s|, 5);
    assert Pow10(5) == 100000;
  }

  function Pow10(n: nat): (p: nat)
    ensures p >= 1
  {
    if n == 0 then 1 else 10 * Pow10(n - 1)
  }

  lemma {:induction false} Pow10Monotone(a: nat, b: nat)
    requires a <= b
    ensures Pow10(a) <= Pow10(b)
    decreases b
  {
    if a < b {
      Pow10Monotone(a, b - 1);
    }
  }

  /** A digit string is at least its leading digit times the power of ten of its place. */
  lemma {:induction false} DigitsAtLeastLead(s: string)
    requires |s| > 0 && AllDigits(s)
    ensures DigitsValue(s) >= Digit(s[0]) * Pow10(|s| - 1)
  {
    if |s| > 1 {
      var init := s[..|s| - 1];
      DigitsAtLeastLead(init);
      assert init[0] == s[0];
      calc {
        DigitsValue(s);
      >= DigitsValue(init) * 10;
      >= Digit(s[0]) * Pow10(|s| - 2) * 10;
      == Digit(s[0]) * Pow10(|s| - 1);
      }
    } else {
      DigitsValue1(s);
    }
  }

  lemma {:induction false} DigitsBelowPower(s: string)
    requires AllDigits(s)
    ensures DigitsValue(s) < Pow10(|s|)
  {
    if |s| > 0 {
      DigitsBelowPower(s[..|s| - 1]);
    }
  }

  /** The arguments Connect derives from an address made of its parts: the host is
      the dotted octets, the port is the port digits' value (not limited to 65535),
      and an accepted polling text is passed as its value. */
  lemma ConnectOfParts(octets: seq<string>, port: string, pollingTime: string)
    requires |octets| == 4 && forall i :: 0 <= i < 4 ==> IsOctet(octets[i])
    requires IsPortText(port)
    requires PollingAccepts(pollingTime)
    ensures var ip := Join(octets, ".") + ":" + port;
      Connect(ip, pollingTime) == Some(ConnectArgs(
        Join(octets, "."), DigitsValue(port),
        if |pollingTime| == 0 then 0 else DigitsValue(pollingTime)))
  {
    var host := Join(octets, ".");
    var ip := host + ":" + port;
    IpPortOfParts(octets, port);
    assert ':' !in host;
    SubstringAfterFirst(host, ':', port);
    SubstringBeforeFirst(host, ':', port);
  }

  lemma ConnectNeedsPort()
    ensures Connect("192.168.0.1", "500") == None
  {
    IpPortNeedsPort();
  }

  // ------------------------------------------------------------------
  // The internal server's port

  /** The port field takes digits-only edits and silently ignores others. */
  function PortInput(current: string, value: string): (r: string)
    ensures r == value || r == current
    ensures AllDigits(value) ==> r == value
  {
    if AllDigits(value) then value else current
  }

  lemma PortInputKeepsDigits(current: string, value: string)
    requires AllDigits(current)
    ensures AllDigits(PortInput(current, value))
    ensures PortInput(current, value) == value <==> (AllDigits(value) || value == current)
  {
  }

  /** Start: the port's value, or 0 when it is empty or beyond the 32-bit range. */
  function StartPort(port: string): (r: int)
    ensures IsInt32(r)
  {
    match ParseInt32(port)
    case Some(v) => v
    case None => 0
  }

  lemma StartPortOfDigits(port: string)
    requires AllDigits(port)
    ensures |port| > 0 && DigitsValue(port) <= INT_MAX ==> StartPort(port) == DigitsValue(port)
    ensures |port| == 0 || DigitsValue(port) > INT_MAX ==> StartPort(port) == 0
  {
  }

  // ------------------------------------------------------------------
  // The screen's text fields

  class ServerFields {
    var ip: string
    var pollingTime: string
    var port: string

    /** Each field holds only what its edits accept. */
    predicate Valid()
      reads this
    {
      AllIpChars(ip) && PollingAccepts(pollingTime) && AllDigits(port)
    }

    /** The fields start from the saved preferences, or their defaults. */
    constructor(savedIp: Option<string>, savedPolling: Option<string>, savedPort: Option<string>)
      ensures ip == (if savedIp.Some? then savedIp.value else "0.0.0.0:0000")
      ensures pollingTime == (if savedPolling.Some? then savedPolling.value else "0")
      ensures port == (if savedPort.Some? then savedPort.value else "0000")
      ensures savedIp.None? && savedPolling.None? && savedPort.None? ==> Valid()
    {
      ip := if savedIp.Some? then savedIp.value else "0.0.0.0:0000";
      pollingTime := if savedPolling.Some? then savedPolling.value else "0";
      port := if savedPort.Some? then savedPort.value else "0000";
      new;
      DigitsValue1("0");
    }

    method EditIp(value: string)
      modifies this
      ensures ip == IpInput(old(ip), value)
      ensures pollingTime == old(pollingTime) && port == old(port)
      ensures old(Valid()) ==> Valid()
    {
      if AllIpChars(value) {
        ip := value;
      }
    }

    method ClearIp()
      modifies this
      ensures ip == "" && pollingTime == old(pollingTime) && port == old(port)
      ensures old(Valid()) ==> Valid()
    {
      ip := "";
    }

    method EditPolling(value: string)
      modifies this
      ensures pollingTime == PollingInput(old(pollingTime), value)
      ensures ip == old(ip) && port == old(port)
      ensures old(Valid()) ==> Valid()
    {
      if PollingAccepts(value) {
        pollingTime := value;
      }
    }

    method ClearPolling()
      modifies this
      ensures pollingTime == "" && ip == old(ip) && port == old(port)
      ensures old(Valid()) ==> Valid()
    {
      pollingTime := "";
    }

    method ClearPort()
      modifies this
      ensures port == "" && ip == old(ip) && pollingTime == old(pollingTime)
      ensures old(Valid()) ==> Valid()
    {
      port := "";
    }

    method EditPort(value: string)
      modifies this
      ensures port == PortInput(old(port), value)
      ensures ip == old(ip) && pollingTime == old(pollingTime)
      ensures old(Valid()) ==> Valid()
    {
      if AllDigits(value) {
        port := value;
      }
    }

    /** Whether the polling field shows its error; never fails on valid fields. */
    method ShowsPollingError() returns (r: bool)
      requires Valid()
      ensures r <==> |pollingTime| > 0 && DigitsValue(pollingTime) < MIN_POLLING_MS
    {
      PollingErrorOfAccepted(pollingTime);
      r := PollingError(pollingTime);
    }
  }
}
