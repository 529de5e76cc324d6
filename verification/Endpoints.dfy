/**
 Runtime endpoints as text. A claim compares endpoints as strings in SQL while
 the search for a free port compares numbers; `PortOfEndpoint` is why the two
 agree on every endpoint this Node writes.
 */
module Endpoints {
  import opened Options

  const PREFIX := "http://127.0.0.1:"
  const MAX_PORT: nat := 65535

  function Digit(d: nat): char
    requires d < 10
  {
    ['0', '1', '2', '3', '4', '5', '6', '7', '8', '9'][d]
  }

  function Decimal(n: nat): string {
    if n < 10 then [Digit(n)] else Decimal(n / 10) + [Digit(n % 10)]
  }

  /** The endpoint this Node writes for a port. */
  function Endpoint(port: nat): string {
    PREFIX + Decimal(port)
  }

  predicate IsDigit(c: char) {
    '0' <= c <= '9'
  }

  /** Digits read most significant first; `None` at the first other character. */
  function ReadDigits(s: string): Option<nat> {
    if s == [] then Some(0)
    else
      var c := s[|s| - 1];
      var rest := ReadDigits(s[..|s| - 1]);
      if rest.Some? && IsDigit(c) then Some(10 * rest.value + (c as int - '0' as int)) else None
  }

  /** An unsigned 16-bit number as the standard library parses it: an optional plus, then digits. */
  function ParsePort(s: string): Option<nat> {
    var digits := if s != [] && s[0] == '+' then s[1..] else s;
    if digits == [] then None
    else
      var n := ReadDigits(digits);
      if n.Some? && n.value <= MAX_PORT then n else None
  }

  /** What follows the last colon, or everything. */
  function AfterLastColon(s: string): string {
    if s == [] then []
    else if s[|s| - 1] == ':' then []
    else AfterLastColon(s[..|s| - 1]) + [s[|s| - 1]]
  }

  function TrimSlashes(s: string): string {
    if s != [] && s[|s| - 1] == '/' then TrimSlashes(s[..|s| - 1]) else s
  }

  function EndpointPort(endpoint: string): Option<nat> {
    ParsePort(TrimSlashes(AfterLastColon(endpoint)))
  }

  lemma {:induction false} DecimalReads(n: nat)
    ensures Decimal(n) != [] && ReadDigits(Decimal(n)) == Some(n)
    ensures forall i | 0 <= i < |Decimal(n)| :: IsDigit(Decimal(n)[i])
    decreases n
  {
    DigitReads(n % 10);
    if n < 10 {
      assert Decimal(n)[..|Decimal(n)| - 1] == [];
    } else {
      DecimalReads(n / 10);
      assert Decimal(n)[..|Decimal(n)| - 1] == Decimal(n / 10);
    }
  }

  lemma DigitReads(d: nat)
    requires d < 10
    ensures IsDigit(Digit(d)) && Digit(d) as int - '0' as int == d
  {
  }

  // ------------------------------------------------------- what a text names

  predicate AllDigits(s: string) {
    forall i | 0 <= i < |s| :: '0' <= s[i] <= '9'
  }

  predicate AllSlashes(s: string) {
    forall i | 0 <= i < |s| :: s[i] == '/'
  }

  function Power10(n: nat): nat {
    if n == 0 then 1 else 10 * Power10(n - 1)
  }

  /** The number that digits stand for, each weighed by its place. */
  function Value(digits: string): int
    requires AllDigits(digits)
  {
    if digits == [] then 0
    else (digits[0] as int - '0' as int) * Power10(|digits| - 1) + Value(digits[1..])
  }

  /** Anything up to a last colon, or nothing; then an optional plus, digits and slashes. */
  predicate Spells(head: string, plus: string, digits: string, slashes: string, port: nat) {
    && (head == "" || head[|head| - 1] == ':')
    && (plus == "" || plus == "+")
    && digits != "" && AllDigits(digits) && Value(digits) == port && port <= 65535
    && AllSlashes(slashes)
  }

  /** The text ends in this port, whatever host it begins with and however the port is written. */
  ghost predicate NamesPort(text: string, port: nat) {
    exists head, plus, digits, slashes ::
      Spells(head, plus, digits, slashes, port) && text == head + (plus + digits + slashes)
  }

  lemma {:induction false} ValueGrows(digits: string, c: char)
    requires AllDigits(digits) && '0' <= c <= '9'
    ensures Value(digits + [c]) == 10 * Value(digits) + (c as int - '0' as int)
    decreases |digits|
  {
    var all := digits + [c];
    if digits == [] {
      assert all[1..] == [];
    } else {
      ValueGrows(digits[1..], c);
      assert all[1..] == digits[1..] + [c];
      PlaceShifts(digits[0] as int - '0' as int, |digits|, Value(digits[1..]), c as int - '0' as int);
    }
  }

  lemma PlaceShifts(d: int, n: nat, rest: int, last: int)
    requires n > 0
    ensures d * Power10(n) + (10 * rest + last) == 10 * (d * Power10(n - 1) + rest) + last
  {
    assert d * Power10(n) == 10 * (d * Power10(n - 1));
  }

  /** Exactly digits are read, and as the number they stand for. */
  lemma {:induction false} DigitsReadAsValue(s: string)
    ensures ReadDigits(s).Some? <==> AllDigits(s)
    ensures AllDigits(s) ==> ReadDigits(s).value == Value(s)
    decreases |s|
  {
    if s != [] {
      var init, last := s[..|s| - 1], s[|s| - 1];
      DigitsReadAsValue(init);
      DigitsSplit(s);
      if AllDigits(s) {
        ValueGrows(init, last);
      }
    }
  }

  lemma DigitsSplit(s: string)
    requires s != []
    ensures s == s[..|s| - 1] + [s[|s| - 1]]
    ensures AllDigits(s) <==> AllDigits(s[..|s| - 1]) && '0' <= s[|s| - 1] <= '9'
  {
  }

  lemma {:induction false} AfterLastColonOf(head: string, tail: string)
    requires head == "" || head[|head| - 1] == ':'
    requires forall i | 0 <= i < |tail| :: tail[i] != ':'
    ensures AfterLastColon(head + tail) == tail
    decreases |tail|
  {
    var s := head + tail;
    if tail != [] {
      AfterLastColonOf(head, tail[..|tail| - 1]);
      assert s[..|s| - 1] == head + tail[..|tail| - 1];
    } else {
      assert s == head;
    }
  }

  lemma {:induction false} LastColonSplits(s: string) returns (head: string)
    ensures s == head + AfterLastColon(s) && (head == "" || head[|head| - 1] == ':')
    decreases |s|
  {
    if s == [] || s[|s| - 1] == ':' {
      head := s;
    } else {
      head := LastColonSplits(s[..|s| - 1]);
    }
  }

  lemma {:induction false} TrimSlashesOf(s: string, slashes: string)
    requires s != [] && s[|s| - 1] != '/' && AllSlashes(slashes)
    ensures TrimSlashes(s + slashes) == s
    decreases |slashes|
  {
    var all := s + slashes;
    if slashes == [] {
      assert all == s;
    } else {
      TrimSlashesOf(s, slashes[..|slashes| - 1]);
      assert all[..|all| - 1] == s + slashes[..|slashes| - 1];
    }
  }

  lemma {:induction false} SlashesSplit(s: string) returns (slashes: string)
    ensures s == TrimSlashes(s) + slashes && AllSlashes(slashes)
    decreases |s|
  {
    if s != [] && s[|s| - 1] == '/' {
      var rest := SlashesSplit(s[..|s| - 1]);
      slashes := rest + "/";
    } else {
      slashes := "";
    }
  }

  lemma PlusAndDigitsParse(plus: string, digits: string)
    requires (plus == "" || plus == "+") && digits != "" && AllDigits(digits)
    ensures ParsePort(plus + digits) == if 0 <= Value(digits) <= 65535 then Some(Value(digits)) else None
  {
    var s := plus + digits;
    DigitsReadAsValue(digits);
    if plus == "" {
      assert s == digits;
    } else {
      assert s[0] == '+' && s[1..] == digits;
    }
  }

  lemma SpelledPortIsRead(head: string, plus: string, digits: string, slashes: string, port: nat)
    requires Spells(head, plus, digits, slashes, port)
    ensures EndpointPort(head + (plus + digits + slashes)) == Some(port)
  {
    var tail := plus + digits + slashes;
    AfterLastColonOf(head, tail);
    assert (plus + digits)[|plus + digits| - 1] == digits[|digits| - 1];
    TrimSlashesOf(plus + digits, slashes);
    PlusAndDigitsParse(plus, digits);
  }

  lemma ReadPortIsSpelled(text: string, port: nat) returns (head: string, plus: string, digits: string, slashes: string)
    requires EndpointPort(text) == Some(port)
    ensures Spells(head, plus, digits, slashes, port) && text == head + (plus + digits + slashes)
  {
    head := LastColonSplits(text);
    var tail := AfterLastColon(text);
    slashes := SlashesSplit(tail);
    var s := TrimSlashes(tail);
    plus := if s != [] && s[0] == '+' then "+" else "";
    digits := s[|plus|..];
    assert s == plus + digits;
    DigitsReadAsValue(digits);
  }

  /** A port is read from a text if and only if the text ends in it: any host, any spelling. */
  lemma PortIsReadIff(text: string, port: nat)
    ensures EndpointPort(text) == Some(port) <==> NamesPort(text, port)
  {
    if EndpointPort(text) == Some(port) {
      var head, plus, digits, slashes := ReadPortIsSpelled(text, port);
    }
    if NamesPort(text, port) {
      var head, plus, digits, slashes :| Spells(head, plus, digits, slashes, port) && text == head + (plus + digits + slashes);
      SpelledPortIsRead(head, plus, digits, slashes, port);
    }
  }

  /** Whatever host a port follows, and however many slashes follow it, it is read. */
  lemma {:induction false} PortAfterAnyHost(host: string, port: nat, slashes: string)
    requires port <= 65535 && AllSlashes(slashes)
    ensures EndpointPort(host + ":" + Decimal(port) + slashes) == Some(port)
  {
    DecimalReads(port);
    DigitsReadAsValue(Decimal(port));
    SpelledPortIsRead(host + ":", "", Decimal(port), slashes, port);
    WithoutPlus(host + ":", Decimal(port), slashes);
  }

  lemma WithoutPlus(head: string, digits: string, slashes: string)
    ensures head + ("" + digits + slashes) == head + digits + slashes
  {
  }

  /** Reading the port back from a written endpoint gives the port, so no two ports share a spelling. */
  lemma PortOfEndpoint(port: nat)
    requires port <= MAX_PORT
    ensures EndpointPort(Endpoint(port)) == Some(port)
  {
    PortAfterAnyHost("http://127.0.0.1", port, "");
    assert Endpoint(port) == "http://127.0.0.1" + ":" + Decimal(port) + "";
  }

  /** A trailing slash names the same port in another spelling. */
  lemma PortBeforeSlash(port: nat)
    requires port <= MAX_PORT
    ensures EndpointPort(Endpoint(port) + "/") == Some(port) && Endpoint(port) + "/" != Endpoint(port)
  {
    PortAfterAnyHost("http://127.0.0.1", port, "/");
    assert Endpoint(port) + "/" == "http://127.0.0.1" + ":" + Decimal(port) + "/";
  }
}
