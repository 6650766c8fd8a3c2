/**
 * The names `TcpServer::newConnection` gives to connections, with the truncation by its buffer, and
 * the formatter of the listening address they contain.
 */
module ConnNames {

  const INT_MAX: nat := 2_147_483_647
  const BUFFER: nat := 64
  const INET_ADDRSTRLEN: nat := 16
  const INET6_ADDRSTRLEN: nat := 46

  type Octet = n: nat | n < 256
  type Port = n: nat | n < 65536

  /** What inet_ntop writes for an IPv6 address, without the terminator. */
  type Ip6Text = s: string | |s| < INET6_ADDRSTRLEN

  datatype SockAddr = V4(a: Octet, b: Octet, c: Octet, d: Octet, port: Port) | V6(text: Ip6Text, port: Port)

  /** Every buffer that can pass an assert of `toIp`: from 16 characters for IPv4, from 46 for IPv6. */
  type BufferSize = n: nat | n >= INET_ADDRSTRLEN witness INET_ADDRSTRLEN

  function DigitChar(d: nat): char
    requires d < 10
  {
    ('0' as int + d) as char
  }

  /** "%d" of a nonnegative number. */
  function Digits(n: nat): (s: string)
    ensures s != []
  {
    if n < 10 then [DigitChar(n)] else Digits(n / 10) + [DigitChar(n % 10)]
  }

  /** snprintf keeps one byte for the terminator. */
  function Cut(s: string, size: nat): string
    requires size > 0
  {
    if |s| < size then s else s[..size - 1]
  }

  function ToIp(addr: SockAddr): string {
    match addr
    case V4(a, b, c, d, _) => Digits(a) + "." + Digits(b) + "." + Digits(c) + "." + Digits(d)
    case V6(text, _) => text
  }

  function ToIpPort(addr: SockAddr, size: BufferSize): string {
    Cut(ToIp(addr) + ":" + Digits(addr.port), size)
  }

  function Name(server: string, ipPort: string, id: nat): string {
    server + Cut("-" + ipPort + "#" + Digits(id), BUFFER)
  }

  lemma {:induction false} DigitsInjective(m: nat, n: nat)
    requires Digits(m) == Digits(n)
    ensures m == n
  {
    if m >= 10 && n >= 10 {
      var p, q := Digits(m / 10), Digits(n / 10);
      assert (p + [DigitChar(m % 10)])[..|p|] == p && (q + [DigitChar(n % 10)])[..|q|] == q;
      assert Digits(m)[|p|] == DigitChar(m % 10) && Digits(n)[|q|] == DigitChar(n % 10);
      DigitsInjective(m / 10, n / 10);
    } else if m < 10 && n < 10 {
      assert Digits(m)[0] == DigitChar(m) && Digits(n)[0] == DigitChar(n);
    }
  }

  function Pow10(k: nat): nat {
    if k == 0 then 1 else 10 * Pow10(k - 1)
  }

  lemma {:induction false} DigitsLength(n: nat, k: nat)
    requires k >= 1 && n < Pow10(k)
    ensures |Digits(n)| <= k
  {
    if n >= 10 {
      assert Pow10(k) == 10 * Pow10(k - 1);
      DigitsLength(n / 10, k - 1);
    }
  }

  lemma TenDigits(n: nat)
    requires n <= INT_MAX
    ensures |Digits(n)| <= 10
  {
    assert Pow10(5) == 100_000;
    assert Pow10(10) == 10 * Pow10(9) && Pow10(9) == 10 * Pow10(8) && Pow10(8) == 10 * Pow10(7);
    assert Pow10(7) == 10 * Pow10(6) && Pow10(6) == 10 * Pow10(5);
    DigitsLength(n, 10);
  }

  /** Short enough addresses give different names to different ids. */
  lemma NamesDiffer(server: string, ipPort: string, i: nat, j: nat)
    requires |ipPort| <= 51 && i <= INT_MAX && j <= INT_MAX && i != j
    ensures Name(server, ipPort, i) != Name(server, ipPort, j)
  {
    TenDigits(i);
    TenDigits(j);
    var head := "-" + ipPort + "#";
    if Name(server, ipPort, i) == Name(server, ipPort, j) {
      assert Name(server, ipPort, i)[|server|..] == head + Digits(i);
      assert Name(server, ipPort, j)[|server|..] == head + Digits(j);
      assert (head + Digits(i))[|head|..] == Digits(i) && (head + Digits(j))[|head|..] == Digits(j);
      DigitsInjective(i, j);
    }
  }

  /** No formatted address is longer than 51 characters. */
  lemma AddressLength(addr: SockAddr, size: BufferSize)
    ensures |ToIpPort(addr, size)| <= 51
  {
    assert Pow10(1) == 10 && Pow10(2) == 100 && Pow10(3) == 1000 && Pow10(4) == 10_000 && Pow10(5) == 100_000;
    DigitsLength(addr.port, 5);
    if addr.V4? {
      DigitsLength(addr.a, 3);
      DigitsLength(addr.b, 3);
      DigitsLength(addr.c, 3);
      DigitsLength(addr.d, 3);
    }
  }

  /** Connections of one server never share a name, whatever its address and for every id an int can hold. */
  lemma NamesUnique(server: string, addr: SockAddr, size: BufferSize, i: nat, j: nat)
    requires i <= INT_MAX && j <= INT_MAX && i != j
    ensures Name(server, ToIpPort(addr, size), i) != Name(server, ToIpPort(addr, size), j)
  {
    AddressLength(addr, size);
    NamesDiffer(server, ToIpPort(addr, size), i, j);
  }

  /** The number a decimal string stands for. */
  function Value(s: string): int {
    if s == [] then 0 else 10 * Value(s[..|s| - 1]) + (s[|s| - 1] as int - '0' as int)
  }

  lemma {:induction false} DigitsRoundTrip(n: nat)
    ensures Value(Digits(n)) == n
  {
    var s := Digits(n);
    if n < 10 {
      assert s[..0] == [];
    } else {
      DigitsRoundTrip(n / 10);
      assert s[..|s| - 1] == Digits(n / 10);
    }
  }

  /** A name is the server's name, a dash, the address, a hash and the id, all of it. */
  lemma NameIsWhole(server: string, addr: SockAddr, size: BufferSize, id: nat)
    requires id <= INT_MAX
    ensures Name(server, ToIpPort(addr, size), id) == server + "-" + ToIpPort(addr, size) + "#" + Digits(id)
  {
    AddressLength(addr, size);
    TenDigits(id);
  }
}
