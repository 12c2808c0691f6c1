/** internal/config/config.go: the server address parser, the address
    formatting done when the YAML file is loaded, and UseDB. */
module Config {
  import opened Wrappers
  import opened Errors

  const DefaultPort := 80

  // ---- strings.Split with a one-character separator ----

  /** How often `sep` occurs in `s`. */
  function Count(s: string, sep: char): nat
  {
    if s == [] then 0 else (if s[0] == sep then 1 else 0) + Count(s[1..], sep)
  }

  /** `strings.Split(s, sep)`: the pieces between the separators; a string
      without separators is one piece, and "" is [""]. */
  function Split(s: string, sep: char): (parts: seq<string>)
    ensures |parts| == Count(s, sep) + 1
    ensures forall i :: 0 <= i < |parts| ==> sep !in parts[i]
  {
    if s == [] then [""]
    else
      var rest := Split(s[1..], sep);
      if s[0] == sep then [""] + rest
      else [[s[0]] + rest[0]] + rest[1..]
  }

  /** `strings.Join(parts, sep)`, the inverse of Split. */
  function Join(parts: seq<string>, sep: char): string
    requires parts != []
  {
    if |parts| == 1 then parts[0] else parts[0] + [sep] + Join(parts[1..], sep)
  }

  lemma {:induction false} JoinSplit(s: string, sep: char)
    ensures Join(Split(s, sep), sep) == s
  {
    if s != [] {
      var rest := Split(s[1..], sep);
      JoinSplit(s[1..], sep);
      if s[0] == sep {
        assert Split(s, sep) == [""] + rest;
        assert ([""] + rest)[1..] == rest;
      } else {
        var parts := Split(s, sep);
        assert parts == [[s[0]] + rest[0]] + rest[1..];
        if |rest| == 1 {
          assert s == [s[0]] + s[1..];
        } else {
          assert parts[1..] == rest[1..];
          assert Join(rest, sep) == rest[0] + [sep] + Join(rest[1..], sep);
          assert s == [s[0]] + s[1..];
        }
      }
    }
  }

  lemma {:induction false} SplitWithoutSeparator(s: string, sep: char)
    requires sep !in s
    ensures Split(s, sep) == [s]
  {
    if s != [] {
      SplitWithoutSeparator(s[1..], sep);
      assert s == [s[0]] + s[1..];
    }
  }

  lemma {:induction false} SplitAtSeparator(a: string, b: string, sep: char)
    requires sep !in a && sep !in b
    ensures Split(a + [sep] + b, sep) == [a, b]
  {
    if a == [] {
      assert a + [sep] + b == [sep] + b;
      assert (a + [sep] + b)[1..] == b;
      SplitWithoutSeparator(b, sep);
    } else {
      assert (a + [sep] + b)[1..] == a[1..] + [sep] + b;
      SplitAtSeparator(a[1..], b, sep);
      assert [a[0]] + a[1..] == a;
    }
  }

  // ---- strconv.Atoi and the %d verb ----

  const Int64Min := -0x8000_0000_0000_0000
  const Int64Max := 0x7fff_ffff_ffff_ffff

  predicate IsDigit(c: char)
  {
    '0' <= c <= '9'
  }

  predicate AllDigits(s: string)
  {
    forall i :: 0 <= i < |s| ==> IsDigit(s[i])
  }

  /** The value of a decimal digit string, most significant digit first. */
  function DigitsValue(s: string): nat
    requires AllDigits(s)
  {
    if s == [] then 0 else DigitsValue(s[..|s| - 1]) * 10 + (s[|s| - 1] - '0') as nat
  }

  /** s without one leading sign. */
  function Unsigned(s: string): (d: string)
    ensures |d| == |s| || |d| == |s| - 1
  {
    if |s| > 0 && (s[0] == '-' || s[0] == '+') then s[1..] else s
  }

  /** `strconv.Atoi` on a 64-bit platform: an optional sign followed by at
      least one ASCII digit, whose value fits in int64. */
  function Atoi(s: string): (r: Option<int>)
    // accepted: digits after at most one sign, with a value in int64
    ensures r.Some? <==>
              && Unsigned(s) != [] && AllDigits(Unsigned(s))
              && (if |s| > 0 && s[0] == '-' then DigitsValue(Unsigned(s)) <= -Int64Min
                  else DigitsValue(Unsigned(s)) <= Int64Max)
    ensures r.Some? ==> r.value == if s[0] == '-' then -(DigitsValue(Unsigned(s)) as int) else DigitsValue(Unsigned(s))
    ensures r.Some? ==> Int64Min <= r.value <= Int64Max
    // no space, no second sign and no other byte anywhere after the first
    ensures r.Some? ==> forall i :: 0 < i < |s| ==> IsDigit(s[i])
    ensures s == [] ==> r == None
  {
    var negative := |s| > 0 && s[0] == '-';
    var digits := if |s| > 0 && (s[0] == '-' || s[0] == '+') then s[1..] else s;
    if digits == [] || !AllDigits(digits) then None
    else
      var v: int := if negative then -(DigitsValue(digits) as int) else DigitsValue(digits);
      if Int64Min <= v <= Int64Max then Some(v) else None
  }

  /** The decimal digits of n, without leading zeros. */
  function NatDigits(n: nat): (s: string)
    ensures s != [] && AllDigits(s)
    decreases n
  {
    if n < 10 then [('0' as int + n) as char]
    else NatDigits(n / 10) + [('0' as int + n % 10) as char]
  }

  /** `fmt.Sprintf("%d", n)`. */
  function Itoa(n: int): string
  {
    if n < 0 then "-" + NatDigits(-n) else NatDigits(n)
  }

  lemma {:induction false} NatDigitsValue(n: nat)
    ensures DigitsValue(NatDigits(n)) == n
    decreases n
  {
    var s := NatDigits(n);
    if n >= 10 {
      NatDigitsValue(n / 10);
      assert s[..|s| - 1] == NatDigits(n / 10);
    }
  }

  /** `strconv.Atoi` reads back what `%d` wrote, for every int64. */
  lemma AtoiItoa(n: int)
    requires Int64Min <= n <= Int64Max
    ensures Atoi(Itoa(n)) == Some(n)
  {
    NatDigitsValue(if n < 0 then -n else n);
    if n < 0 {
      assert Itoa(n)[1..] == NatDigits(-n);
    }
  }

  lemma ItoaHasNoColon(n: int)
    ensures ':' !in Itoa(n)
  {
    var d := NatDigits(if n < 0 then -n else n);
    assert forall i :: 0 <= i < |d| ==> d[i] != ':';
  }

  // ---- ParseServerHostPort, LoadYaml's address, UseDB ----

  /** `ParseServerHostPort`: "host" gives port 80, "host:port" parses the port,
      anything with more ':' is an error. An error stands for the source's
      ("", 0, err). */
  function ParseServerHostPort(address: string): (r: Result<(string, int), Error>)
    ensures r.Success? ==> ':' !in r.value.0
    ensures Count(address, ':') > 1 ==> r == Failure(AddressForm)
  {
    var addr := Split(address, ':');
    if |addr| > 2 then Failure(AddressForm)
    else if |addr| == 2 then
      match Atoi(addr[1])
      case None => Failure(PortSyntax)
      case Some(port) => Success((addr[0], port))
    else Success((addr[0], DefaultPort))
  }

  lemma ParseWithoutColon(address: string)
    requires ':' !in address
    ensures ParseServerHostPort(address) == Success((address, DefaultPort))
  {
    SplitWithoutSeparator(address, ':');
  }

  lemma ParseWithOneColon(host: string, port: string)
    requires ':' !in host && ':' !in port
    ensures ParseServerHostPort(host + ":" + port) ==
              match Atoi(port)
              case None => Failure(PortSyntax)
              case Some(p) => Success((host, p))
  {
    SplitAtSeparator(host, port, ':');
  }

  /** The address LoadYaml stores: `fmt.Sprintf("%s:%d", cfg.Host, cfg.Port)`. */
  function FormatAddress(host: string, port: int): string
  {
    host + ":" + Itoa(port)
  }

  /** The address LoadYaml forms parses back to the host and port it came from. */
  lemma FormatParseRoundTrip(host: string, port: int)
    requires ':' !in host
    requires Int64Min <= port <= Int64Max
    ensures ParseServerHostPort(FormatAddress(host, port)) == Success((host, port))
  {
    ItoaHasNoColon(port);
    ParseWithOneColon(host, Itoa(port));
    AtoiItoa(port);
  }

  /** The part of Config.Server that UseDB reads. */
  datatype Server = Server(databaseUri: string)

  /** `UseDB`: the service runs on PostgreSQL only when a DSN is configured. */
  function UseDB(server: Server): (r: bool)
    ensures r <==> server.databaseUri != ""
  {
    server.databaseUri != ""
  }
}
