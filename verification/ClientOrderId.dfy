/**
 The idempotency key of an order: the text that is hashed, and what keeps two different
 commands from sharing it. SHA-256 itself is a parameter of the modules that use this one.
 */
module ClientOrderId {
  import opened OrderTypes

  const BAR := '|'
  const COLON := ':'
  const NONCE_WRAP: nat := 0x1_0000_0000_0000_0000

  /** The hashed text: `strategyId|seq|symbol|side`. */
  function PreImage(strategy: string, key: string, symbol: string, side: string): string {
    strategy + [BAR] + key + [BAR] + symbol + [BAR] + side
  }

  /** Decimal digits of a nonce, most significant first. */
  function Decimal(n: nat): (s: string)
    ensures |s| >= 1
    ensures forall c <- s :: '0' <= c <= '9'
  {
    if n < 10 then [Digit(n)] else Decimal(n / 10) + [Digit(n % 10)]
  }

  function Digit(d: nat): (c: char)
    requires d < 10
    ensures '0' <= c <= '9'
  {
    '0' + d as char
  }

  /** The producer's key when there is one; otherwise the engine's own nonce and a time stamp. */
  function KeyOf(cmd: Command, nonce: nat, stamp: string): string {
    if cmd.key != "" then cmd.key else Decimal(nonce) + [COLON] + stamp
  }

  function CommandPreImage(cmd: Command, nonce: nat, stamp: string): string {
    PreImage(cmd.strategy, KeyOf(cmd, nonce, stamp), cmd.symbol, cmd.side)
  }

  /** How many characters come before the first separator. */
  function First(sep: char, s: string): nat {
    if s == "" || s[0] == sep then 0 else 1 + First(sep, s[1..])
  }

  /** How many characters come after the last separator. */
  function Last(sep: char, s: string): nat {
    if s == "" || s[|s| - 1] == sep then 0 else 1 + Last(sep, s[..|s| - 1])
  }

  lemma {:induction false} FirstIs(sep: char, a: string, x: string)
    requires sep !in a
    ensures First(sep, a + [sep] + x) == |a|
  {
    if a != "" {
      assert (a + [sep] + x)[1..] == a[1..] + [sep] + x;
      FirstIs(sep, a[1..], x);
    }
  }

  lemma {:induction false} LastIs(sep: char, x: string, a: string)
    requires sep !in a
    ensures Last(sep, x + [sep] + a) == |a|
  {
    var s := x + [sep] + a;
    if a != "" {
      assert s[..|s| - 1] == x + [sep] + a[..|a| - 1];
      LastIs(sep, x, a[..|a| - 1]);
    }
  }

  lemma SplitAtFirst(sep: char, a: string, x: string, b: string, y: string)
    requires sep !in a && sep !in b
    requires a + [sep] + x == b + [sep] + y
    ensures a == b && x == y
  {
    FirstIs(sep, a, x);
    FirstIs(sep, b, y);
    assert a == (a + [sep] + x)[..|a|] && b == (b + [sep] + y)[..|b|];
    assert x == (a + [sep] + x)[|a| + 1..] && y == (b + [sep] + y)[|b| + 1..];
  }

  lemma SplitAtLast(sep: char, x: string, a: string, y: string, b: string)
    requires sep !in a && sep !in b
    requires x + [sep] + a == y + [sep] + b
    ensures x == y && a == b
  {
    LastIs(sep, x, a);
    LastIs(sep, y, b);
    assert x == (x + [sep] + a)[..|x|] && y == (y + [sep] + b)[..|y|];
    assert a == (x + [sep] + a)[|x| + 1..] && b == (y + [sep] + b)[|y| + 1..];
  }

  /** A field that holds no separator. */
  predicate Plain(s: string) {
    BAR !in s
  }

  /** The key may hold any number of bars: only the other three fields must hold none. */
  lemma PreImageInjective(strategy: string, key: string, symbol: string, side: string,
                          strategy': string, key': string, symbol': string, side': string)
    requires Plain(strategy) && Plain(symbol) && Plain(side)
    requires Plain(strategy') && Plain(symbol') && Plain(side')
    requires PreImage(strategy, key, symbol, side) == PreImage(strategy', key', symbol', side')
    ensures strategy == strategy' && key == key' && symbol == symbol' && side == side'
  {
    SplitAtLast(BAR, strategy + [BAR] + key + [BAR] + symbol, side, strategy' + [BAR] + key' + [BAR] + symbol', side');
    SplitAtLast(BAR, strategy + [BAR] + key, symbol, strategy' + [BAR] + key', symbol');
    SplitAtFirst(BAR, strategy, key, strategy', key');
  }

  /** The condition is exact: a bar in any of the three fields lets another command hash the same text. */
  lemma BarAlwaysCollides(strategy: string, key: string, symbol: string, side: string)
    returns (strategy': string, key': string, symbol': string, side': string)
    requires !(Plain(strategy) && Plain(symbol) && Plain(side))
    ensures PreImage(strategy, key, symbol, side) == PreImage(strategy', key', symbol', side')
    ensures (strategy, key, symbol, side) != (strategy', key', symbol', side')
  {
    if !Plain(strategy) {
      var i :| 0 <= i < |strategy| && strategy[i] == BAR;
      assert strategy == strategy[..i] + [BAR] + strategy[i + 1..];
      strategy', key', symbol', side' := strategy[..i], strategy[i + 1..] + [BAR] + key, symbol, side;
      assert strategy + [BAR] + key == strategy' + [BAR] + key';
    } else if !Plain(symbol) {
      var i :| 0 <= i < |symbol| && symbol[i] == BAR;
      assert symbol == symbol[..i] + [BAR] + symbol[i + 1..];
      strategy', key', symbol', side' := strategy, key + [BAR] + symbol[..i], symbol[i + 1..], side;
      assert strategy + [BAR] + key + [BAR] + symbol == strategy' + [BAR] + key' + [BAR] + symbol';
    } else {
      var i :| 0 <= i < |side| && side[i] == BAR;
      assert side == side[..i] + [BAR] + side[i + 1..];
      strategy', key', symbol', side' := strategy, key + [BAR] + symbol, side[..i], side[i + 1..];
      assert PreImage(strategy, key, symbol, side) == PreImage(strategy', key', symbol', side');
    }
  }

  lemma {:induction false} DecimalInjective(m: nat, n: nat)
    requires Decimal(m) == Decimal(n)
    ensures m == n
  {
    var s := Decimal(m);
    if m < 10 || n < 10 {
      assert m < 10 ==> s == [Digit(m)];
      assert n < 10 ==> s == [Digit(n)];
      assert m >= 10 ==> |s| >= 2;
      assert n >= 10 ==> |s| >= 2;
    } else {
      assert s[..|s| - 1] == Decimal(m / 10) && s[..|s| - 1] == Decimal(n / 10);
      assert s[|s| - 1] == Digit(m % 10) && s[|s| - 1] == Digit(n % 10);
      DecimalInjective(m / 10, n / 10);
    }
  }

  /** The number that a text of decimal digits stands for. */
  function ValueOf(s: string): int {
    if s == "" then 0 else 10 * ValueOf(s[..|s| - 1]) + (s[|s| - 1] as int - '0' as int)
  }

  lemma {:induction false} DecimalIsRead(n: nat)
    ensures ValueOf(Decimal(n)) == n
  {
    var s := Decimal(n);
    if n < 10 {
      assert s[..0] == "";
    } else {
      DecimalIsRead(n / 10);
      assert s[..|s| - 1] == Decimal(n / 10);
    }
  }

  /** Two commands without a producer key that draw different nonces never share a hashed text. */
  lemma NonceSeparates(c: Command, n: nat, stamp: string, c': Command, n': nat, stamp': string)
    requires c.key == "" && c'.key == "" && n != n'
    requires Plain(c.strategy) && Plain(c.symbol) && Plain(c.side)
    requires Plain(c'.strategy) && Plain(c'.symbol) && Plain(c'.side)
    ensures CommandPreImage(c, n, stamp) != CommandPreImage(c', n', stamp')
  {
    if CommandPreImage(c, n, stamp) == CommandPreImage(c', n', stamp') {
      PreImageInjective(c.strategy, KeyOf(c, n, stamp), c.symbol, c.side,
                        c'.strategy, KeyOf(c', n', stamp'), c'.symbol, c'.side);
      SplitAtFirst(COLON, Decimal(n), stamp, Decimal(n'), stamp');
      DecimalInjective(n, n');
    }
  }
}
