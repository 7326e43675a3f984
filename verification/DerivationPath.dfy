/** Hierarchical-deterministic derivation paths, written in the notation of BIP-32
    ("Path levels" section of BIP-44): m / purpose' / coin_type' / account' / ... */
module DerivationPath {
  import opened Options

  type Component = n: nat | n < 0x1_0000_0000
  type Path = seq<Component>

  const HARDENED: nat := 0x8000_0000
  const DEFAULT_ROOT: Path := [HARDENED + 44, HARDENED + 60, HARDENED + 0, 0]

  datatype Error = EmptyPath | AmbiguousPath | InvalidComponent(text: string) | OutOfRange(value: int, hardened: bool)
  datatype Result<+T> = Ok(value: T) | Err(error: Error)

  // --------------------------------------------------------------- string functions

  predicate IsSpace(c: char) {
    var k := c as int;
    9 <= k <= 13 || k in {0x20, 0x85, 0xA0, 0x1680, 0x2028, 0x2029, 0x202F, 0x205F, 0x3000} || 0x2000 <= k <= 0x200A
  }

  function TrimLeft(s: string): (r: string)
  {
    if s != [] && IsSpace(s[0]) then TrimLeft(s[1..]) else s
  }

  function TrimRight(s: string): (r: string)
  {
    if s != [] && IsSpace(s[|s| - 1]) then TrimRight(s[..|s| - 1]) else s
  }

  function TrimSpace(s: string): (r: string)
  {
    TrimRight(TrimLeft(s))
  }

  /** The parts between the slashes, at least one. */
  function Split(s: string): (parts: seq<string>)
    ensures parts != []
  {
    if s == [] then [[]]
    else
      var rest, c := Split(s[..|s| - 1]), s[|s| - 1];
      if c == '/' then rest + [[]] else rest[..|rest| - 1] + [rest[|rest| - 1] + [c]]
  }

  /** Decimal digits without leading zeros. */
  function Digits(n: nat): (s: string)
    ensures s != []
    ensures forall i | 0 <= i < |s| :: '0' <= s[i] <= '9'
    ensures s[0] == '0' ==> n == 0
    ensures n == 0 ==> s == "0"
  {
    if n < 10 then [('0' as int + n) as char] else Digits(n / 10) + [('0' as int + n % 10) as char]
  }

  // --------------------------------------------------- integer literals of any base

  datatype Prev = Start | Digit | Separator

  /** Left-to-right state of the literal scanner. */
  datatype Scan = Scan(value: nat, count: nat, prev: Prev, ok: bool)

  /** The value of a digit, or 36 for anything else. */
  function DigitValue(c: char): (d: nat)
  {
    if '0' <= c <= '9' then c as int - '0' as int
    else if 'a' <= c <= 'z' then c as int - 'a' as int + 10
    else if 'A' <= c <= 'Z' then c as int - 'A' as int + 10
    else 36
  }

  /** One character: an underscore must follow a digit or a base prefix. */
  function ScanStep(st: Scan, base: nat, c: char): (r: Scan)
  {
    if c == '_' then st.(prev := Separator, ok := st.ok && st.prev == Digit)
    else if DigitValue(c) < base then Scan(st.value * base + DigitValue(c), st.count + 1, Digit, st.ok)
    else st.(ok := false)
  }

  function ScanAll(st: Scan, base: nat, s: string): (r: Scan)
  {
    if s == [] then st else ScanStep(ScanAll(st, base, s[..|s| - 1]), base, s[|s| - 1])
  }

  function ScanResult(st: Scan, onlyPrefixOk: bool): (r: Option<nat>)
  {
    if !st.ok || st.prev == Separator then None
    else if st.count == 0 then (if onlyPrefixOk then Some(0) else None)
    else Some(st.value)
  }

  /** An unsigned literal: 0b, 0o, 0x and 0 are base prefixes. */
  function Magnitude(s: string): (r: Option<nat>)
  {
    var afterPrefix := Scan(0, 0, Digit, true);
    if |s| >= 2 && s[0] == '0' then
      if s[1] in {'b', 'B'} then ScanResult(ScanAll(afterPrefix, 2, s[2..]), false)
      else if s[1] in {'o', 'O'} then ScanResult(ScanAll(afterPrefix, 8, s[2..]), false)
      else if s[1] in {'x', 'X'} then ScanResult(ScanAll(afterPrefix, 16, s[2..]), false)
      else ScanResult(ScanAll(afterPrefix, 8, s[1..]), true)
    else ScanResult(ScanAll(Scan(0, 0, Start, true), 10, s), false)
  }

  function SetString(s: string): (r: Option<int>)
  {
    if s != [] && s[0] in {'+', '-'} then
      var m := Magnitude(s[1..]);
      if m.None? then None else var v: int := m.value; Some(if s[0] == '-' then -v else v)
    else
      var m := Magnitude(s);
      if m.None? then None else Some(m.value)
  }

  // ---------------------------------------------------------------- parser and printer

  function ParseComponent(text: string): (r: Result<Component>)
  {
    var c := TrimSpace(text);
    var hardened := c != [] && c[|c| - 1] == '\'';
    var number := if hardened then TrimSpace(c[..|c| - 1]) else c;
    var v := SetString(number);
    if v.None? then Err(InvalidComponent(number))
    else if v.value < 0 || v.value > 0xFFFF_FFFF - (if hardened then HARDENED
      else 0) then Err(OutOfRange(v.value, hardened))
    else Ok(v.value + if hardened then HARDENED else 0)
  }

  function ParseAll(parts: seq<string>): (r: Result<Path>)
    ensures r.Ok? ==> |r.value| == |parts|
  {
    if parts == [] then Ok([])
    else
      var front := ParseAll(parts[..|parts| - 1]);
      if front.Err? then front
      else
        var last := ParseComponent(parts[|parts| - 1]);
        if last.Err? then Err(last.error) else Ok(front.value + [last.value])
  }

  /** A leading "m" makes a path absolute; otherwise it extends the default root. */
  function Parse(path: string): (r: Result<Path>)
  {
    var parts := Split(path);
    var first := TrimSpace(parts[0]);
    if first == "" then Err(AmbiguousPath)
    else if first == "m" then
      if |parts| == 1 then Err(EmptyPath) else ParseAll(parts[1..])
    else
      var rest := ParseAll(parts);
      if rest.Err? then rest else Ok(DEFAULT_ROOT + rest.value)
  }

  method ParseDerivationPath(path: string) returns (r: Result<Path>)
    ensures r == Parse(path)
  {
    var parts := Split(path);
    if TrimSpace(parts[0]) == "" {
      return Err(AmbiguousPath);
    } else if TrimSpace(parts[0]) == "m" {
      if |parts| == 1 {
        return Err(EmptyPath);
      }
      r := ParseParts(parts[1..], []);
      assert r.Ok? ==> r.value == ParseAll(parts[1..]).value;
    } else {
      r := ParseParts(parts, DEFAULT_ROOT);
    }
  }

  /** Parses the components one by one and appends them to the root. */
  method ParseParts(parts: seq<string>, root: Path) returns (r: Result<Path>)
    ensures r == match ParseAll(parts) { case Ok(p) => Ok(root + p) case Err(e) => Err(e) }
  {
    var result, i := root, 0;
    while i < |parts|
      invariant 0 <= i <= |parts|
      invariant ParseAll(parts[..i]).Ok? && result == root + ParseAll(parts[..i]).value
    {
      var c := ParseComponent(parts[i]);
      assert parts[..i + 1][..i] == parts[..i];
      if c.Err? {
        ParseAllStops(parts, i + 1);
        return Err(c.error);
      }
      assert result + [c.value] == root + ParseAll(parts[..i + 1]).value;
      result, i := result + [c.value], i + 1;
    }
    assert parts[..i] == parts;
    r := Ok(result);
  }

  lemma {:induction false} ParseAllStops(parts: seq<string>, n: nat)
    requires n <= |parts| && ParseAll(parts[..n]).Err?
    ensures ParseAll(parts) == ParseAll(parts[..n])
    decreases |parts|
  {
    if n == |parts| {
      assert parts[..n] == parts;
    } else {
      assert parts[..|parts| - 1][..n] == parts[..n];
      ParseAllStops(parts[..|parts| - 1], n);
    }
  }

  function Text(c: Component): (s: string)
    ensures s != []
  {
    if c >= HARDENED then Digits(c - HARDENED) + "'" else Digits(c)
  }

  function Print(path: Path): (s: string)
  {
    if path == [] then "m" else Print(path[..|path| - 1]) + "/" + Text(path[|path| - 1])
  }

  method String(path: Path) returns (s: string)
    ensures s == Print(path)
  {
    s := "m";
    var i := 0;
    while i < |path|
      invariant 0 <= i <= |path| && s == Print(path[..i])
    {
      var c, hardened := path[i] as nat, false;
      if c >= HARDENED {
        c, hardened := c - HARDENED, true;
      }
      s := s + "/" + Digits(c);
      if hardened {
        s := s + "'";
      }
      assert path[..i + 1][..i] == path[..i];
      i := i + 1;
    }
    assert path[..i] == path;
  }

  // ---------------------------------------------------------------------- round trip

  lemma {:induction false} ScanDigits(n: nat)
    ensures var st := ScanAll(Scan(0, 0, Start, true), 10, Digits(n));
            st.value == n && st.count > 0 && st.prev == Digit && st.ok
  {
    if n >= 10 {
      ScanDigits(n / 10);
      var s := Digits(n);
      assert s[..|s| - 1] == Digits(n / 10);
    }
  }

  lemma SetStringDigits(n: nat)
    ensures SetString(Digits(n)) == Some(n)
  {
    ScanDigits(n);
    DigitsLength(n);
  }

  lemma {:induction false} DigitsLength(n: nat)
    ensures |Digits(n)| >= 2 <==> n >= 10
    ensures n > 0 ==> Digits(n)[0] != '0'
  {
  }

  function HexDigit(d: nat): char
    requires d < 16
  {
    if d < 10 then ('0' as int + d) as char else ('a' as int + d - 10) as char
  }

  function HexDigits(n: nat): (s: string)
    ensures s != []
  {
    if n < 16 then [HexDigit(n)] else HexDigits(n / 16) + [HexDigit(n % 16)]
  }

  lemma {:induction false} ScanHexDigits(n: nat)
    ensures var st := ScanAll(Scan(0, 0, Digit, true), 16, HexDigits(n));
            st.value == n && st.count > 0 && st.prev == Digit && st.ok
  {
    if n >= 16 {
      ScanHexDigits(n / 16);
      var s := HexDigits(n);
      assert s[..|s| - 1] == HexDigits(n / 16);
    }
  }

  /** Hexadecimal text of a number reads as the number. */
  lemma {:induction false} HexReads(x: char, n: nat)
    requires x == 'x' || x == 'X'
    ensures SetString(['0', x] + HexDigits(n)) == Some(n)
  {
    var s := ['0', x] + HexDigits(n);
    ScanHexDigits(n);
    assert s[2..] == HexDigits(n);
    assert Magnitude(s) == ScanResult(ScanAll(Scan(0, 0, Digit, true), 16, s[2..]), false);
  }

  ghost predicate AllSpace(s: string) {
    forall i | 0 <= i < |s| :: IsSpace(s[i])
  }

  lemma {:induction false} TrimLeftPadded(pad: string, s: string)
    requires AllSpace(pad)
    ensures TrimLeft(pad + s) == TrimLeft(s)
  {
    if pad == [] {
      assert pad + s == s;
    } else {
      TrimLeftPadded(pad[1..], s);
      assert (pad + s)[1..] == pad[1..] + s;
    }
  }

  lemma {:induction false} TrimRightPadded(s: string, pad: string)
    requires AllSpace(pad)
    ensures TrimRight(s + pad) == TrimRight(s)
  {
    if pad == [] {
      assert s + pad == s;
    } else {
      var init := pad[..|pad| - 1];
      TrimRightPadded(s, init);
      assert (s + pad)[..|s + pad| - 1] == s + init;
    }
  }

  lemma {:induction false} TrimLeftOf(s: string, pad: string)
    requires AllSpace(pad)
    ensures TrimLeft(s + pad) == if AllSpace(s) then [] else TrimLeft(s) + pad
  {
    if AllSpace(s) {
      TrimLeftPadded(s + pad, []);
      assert s + pad + [] == s + pad;
    } else if IsSpace(s[0]) {
      TrimLeftOf(s[1..], pad);
      assert (s + pad)[1..] == s[1..] + pad;
    }
  }

  /** Padding does not matter. */
  lemma {:induction false} TrimPadded(l: string, s: string, r: string)
    requires AllSpace(l) && AllSpace(r)
    ensures TrimSpace(l + s + r) == TrimSpace(s)
  {
    assert l + s + r == l + (s + r);
    TrimLeftPadded(l, s + r);
    TrimLeftOf(s, r);
    if AllSpace(s) {
      TrimLeftPadded(s, []);
      assert s + [] == s;
    } else {
      TrimRightPadded(TrimLeft(s), r);
    }
  }

  lemma {:induction false} ParsePadded(l: string, text: string, r: string)
    requires AllSpace(l) && AllSpace(r)
    ensures ParseComponent(l + text + r) == ParseComponent(text)
  {
    TrimPadded(l, text, r);
  }

  lemma NoTrim(s: string)
    requires s != [] && !IsSpace(s[0]) && !IsSpace(s[|s| - 1])
    ensures TrimSpace(s) == s
  {
  }

  lemma ParseText(c: Component)
    ensures ParseComponent(Text(c)) == Ok(c)
  {
    var n := if c >= HARDENED then c - HARDENED else c;
    var d := Digits(n);
    NoTrim(d);
    NoTrim(Text(c));
    SetStringDigits(n);
    if c >= HARDENED {
      assert Text(c)[..|Text(c)| - 1] == d;
    }
  }

  /** Appending a slash and a slash-free text appends one part. */
  lemma {:induction false} SplitAppend(s: string, t: string)
    requires '/' !in t
    ensures Split(s + "/" + t) == Split(s) + [t]
  {
    var u := s + "/" + t;
    if t == [] {
      assert u[..|u| - 1] == s;
    } else {
      var t' := t[..|t| - 1];
      SplitAppend(s, t');
      assert u[..|u| - 1] == s + "/" + t';
      assert t == t' + [t[|t| - 1]];
    }
  }

  lemma TextHasNoSlash(c: Component)
    ensures '/' !in Text(c)
  {
  }

  function Texts(path: Path): (ts: seq<string>)
    ensures |ts| == |path|
  {
    if path == [] then [] else Texts(path[..|path| - 1]) + [Text(path[|path| - 1])]
  }

  lemma {:induction false} SplitPrint(path: Path)
    ensures Split(Print(path)) == ["m"] + Texts(path)
  {
    if path == [] {
      var front := "m"[..0];
      assert front == [] && Split(front) == [[]];
      var m: string := [] + ['m'];
      assert m == "m";
      assert Split("m") == [[]][..0] + [m] == ["m"];
      assert Print(path) == "m" && ["m"] + Texts(path) == ["m"];
    } else {
      var front, c := path[..|path| - 1], path[|path| - 1];
      SplitPrint(front);
      TextHasNoSlash(c);
      SplitAppend(Print(front), Text(c));
    }
  }

  lemma {:induction false} ParseTexts(path: Path)
    ensures ParseAll(Texts(path)) == Ok(path)
  {
    if path != [] {
      var front, c := path[..|path| - 1], path[|path| - 1];
      ParseTexts(front);
      ParseText(c);
      assert Texts(path)[..|path| - 1] == Texts(front);
      assert path == front + [c];
    }
  }

  /** Parsing a printed path gives the path back: every non-empty path of 32-bit
      components, hardened or not. The empty path is the one that does not return. */
  lemma {:induction false} RoundTrip(path: Path)
    ensures Parse(Print(path)) == if path == [] then Err(EmptyPath) else Ok(path)
  {
    SplitPrint(path);
    ParseTexts(path);
    NoTrim("m");
    assert (["m"] + Texts(path))[1..] == Texts(path);
  }

  /** So printing is injective, and re-printing a parsed path is a normal form. */
  lemma PrintInjective(p: Path, q: Path)
    requires Print(p) == Print(q)
    ensures p == q
  {
    RoundTrip(p);
    RoundTrip(q);
  }

  /** What a relative path means: the same components under the default root. */
  lemma {:induction false} RelativePath(path: Path, text: string)
    requires path != [] && Split(text) == Texts(path)
    ensures Parse(text) == Ok(DEFAULT_ROOT + path)
  {
    ParseTexts(path);
    FirstText(path);
  }

  lemma {:induction false} FirstText(path: Path)
    requires path != []
    ensures Texts(path)[0] == Text(path[0]) && TrimSpace(Text(path[0])) == Text(path[0])
    ensures Text(path[0]) != "m" && Text(path[0]) != ""
  {
    if |path| > 1 {
      FirstText(path[..|path| - 1]);
    }
    NoTrim(Text(path[0]));
  }
}
