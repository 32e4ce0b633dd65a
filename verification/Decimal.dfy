/** Decimal printing of numbers and of IPv4 addresses, as `format!` does it, and its injectivity. */
module Decimal {
  import opened Protocol
  import opened Text

  function Digit(d: nat): char
    requires d < 10
  {
    ('0' as int + d) as char
  }

  function Print(n: nat): (s: string)
    ensures s != []
  {
    if n < 10 then [Digit(n)] else Print(n / 10) + [Digit(n % 10)]
  }

  function Parse(s: string): int {
    if s == [] then 0 else Parse(s[..|s| - 1]) * 10 + (s[|s| - 1] as int - '0' as int)
  }

  lemma ParseLast(s: string, c: char)
    ensures Parse(s + [c]) == Parse(s) * 10 + (c as int - '0' as int)
  {
    assert (s + [c])[..|s|] == s;
  }

  lemma {:induction false} ParsePrint(n: nat)
    ensures Parse(Print(n)) == n
  {
    if n < 10 {
      ParseLast([], Digit(n));
      assert [] + [Digit(n)] == [Digit(n)];
    } else {
      ParsePrint(n / 10);
      ParseLast(Print(n / 10), Digit(n % 10));
    }
  }

  lemma {:induction false} PrintIsDigits(n: nat)
    ensures forall c :: c in Print(n) ==> '0' <= c <= '9'
  {
    if n >= 10 {
      PrintIsDigits(n / 10);
    }
  }

  lemma PrintInjective(m: nat, n: nat)
    requires Print(m) == Print(n)
    ensures m == n
  {
    ParsePrint(m);
    ParsePrint(n);
  }

  /** Two texts that agree up to a separator neither first part contains agree on both parts. */
  lemma SplitAtSeparator(a: string, b: string, c: string, d: string, sep: char)
    requires sep !in a && sep !in c
    requires a + [sep] + b == c + [sep] + d
    ensures a == c && b == d
  {
    var s := a + [sep] + b;
    assert s == c + [sep] + d;
    assert s[|a|] == sep && s[|c|] == sep;
    assert forall i :: 0 <= i < |a| ==> s[i] == a[i] != sep;
    assert forall i :: 0 <= i < |c| ==> s[i] == c[i] != sep;
    assert a == s[..|a|] && c == s[..|c|];
    assert b == s[|a| + 1..] && d == s[|c| + 1..];
  }

  datatype Ipv4 = Ipv4(a: byte, b: byte, c: byte, d: byte)

  function Dotted(ip: Ipv4): string {
    Print(ip.a) + ['.'] + (Print(ip.b) + ['.'] + (Print(ip.c) + ['.'] + Print(ip.d)))
  }

  lemma DottedInjective(x: Ipv4, y: Ipv4)
    requires Dotted(x) == Dotted(y)
    ensures x == y
  {
    PrintIsDigits(x.a); PrintIsDigits(x.b); PrintIsDigits(x.c);
    PrintIsDigits(y.a); PrintIsDigits(y.b); PrintIsDigits(y.c);
    var xs, ys := Print(x.c) + ['.'] + Print(x.d), Print(y.c) + ['.'] + Print(y.d);
    SplitAtSeparator(Print(x.a), Print(x.b) + ['.'] + xs, Print(y.a), Print(y.b) + ['.'] + ys, '.');
    SplitAtSeparator(Print(x.b), xs, Print(y.b), ys, '.');
    SplitAtSeparator(Print(x.c), Print(x.d), Print(y.c), Print(y.d), '.');
    PrintInjective(x.a, y.a); PrintInjective(x.b, y.b); PrintInjective(x.c, y.c); PrintInjective(x.d, y.d);
  }

  lemma DottedHasNoColon(ip: Ipv4)
    ensures ':' !in Dotted(ip)
  {
    PrintIsDigits(ip.a); PrintIsDigits(ip.b); PrintIsDigits(ip.c); PrintIsDigits(ip.d);
  }

  // ---- Reading addresses and endpoints ----

  /** Four numbers below 256 between dots, in order. */
  function ParseIp(s: string): Option<Ipv4> {
    var parts := Split(s, '.');
    if |parts| == 4 && forall i :: 0 <= i < 4 ==> 0 <= Parse(parts[i]) < 256
    then Some(Ipv4(Parse(parts[0]), Parse(parts[1]), Parse(parts[2]), Parse(parts[3])))
    else None
  }

  lemma DottedIsJoin(ip: Ipv4)
    ensures Dotted(ip) == Join([Print(ip.a), Print(ip.b), Print(ip.c), Print(ip.d)], '.')
  {
    var a, b, c, d := Print(ip.a), Print(ip.b), Print(ip.c), Print(ip.d);
    assert [a, b, c, d][..3] == [a, b, c] && [a, b, c][..2] == [a, b];
    JoinTwo(a, b, '.');
    assert Join([a, b, c], '.') == a + ['.'] + b + ['.'] + c;
    assert Join([a, b, c, d], '.') == a + ['.'] + b + ['.'] + c + ['.'] + d;
  }

  /** A printed address reads back octet by octet. */
  lemma ParseDotted(ip: Ipv4)
    ensures Split(Dotted(ip), '.') == [Print(ip.a), Print(ip.b), Print(ip.c), Print(ip.d)]
    ensures ParseIp(Dotted(ip)) == Some(ip)
  {
    DottedIsJoin(ip);
    PrintIsDigits(ip.a); PrintIsDigits(ip.b); PrintIsDigits(ip.c); PrintIsDigits(ip.d);
    SplitOfJoin([Print(ip.a), Print(ip.b), Print(ip.c), Print(ip.d)], '.');
    ParsePrint(ip.a); ParsePrint(ip.b); ParsePrint(ip.c); ParsePrint(ip.d);
  }

  datatype Endpoint = Endpoint(addr: Ipv4, port: nat)

  /** `address:port` */
  function ParseEndpoint(s: string): Option<Endpoint> {
    var parts := Split(s, ':');
    if |parts| == 2 && ParseIp(parts[0]).Some? && Parse(parts[1]) >= 0
    then Some(Endpoint(ParseIp(parts[0]).value, Parse(parts[1])))
    else None
  }

  lemma ParsePrintedEndpoint(addr: Ipv4, port: nat)
    ensures ParseEndpoint(Dotted(addr) + [':'] + Print(port)) == Some(Endpoint(addr, port))
  {
    DottedHasNoColon(addr);
    PrintIsDigits(port);
    JoinTwo(Dotted(addr), Print(port), ':');
    SplitOfJoin([Dotted(addr), Print(port)], ':');
    ParseDotted(addr);
    ParsePrint(port);
  }
}
