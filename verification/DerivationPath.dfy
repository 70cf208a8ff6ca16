/** Derivation paths of hierarchical deterministic wallets, in the notation of BIP-32. */
module DerivationPaths {
  import opened Basics

  /** Components are 32-bit numbers; the upper half of the range is called hardened. */
  ghost predicate Fits(path: seq<nat>) {
    forall i :: 0 <= i < |path| ==> path[i] <= 0xFFFF_FFFF
  }

  /** The characters that Unicode calls white space. */
  predicate IsSpace(c: char) {
    || '\U{9}' <= c <= '\U{D}' || c == ' ' || c == '\U{85}' || c == '\U{A0}' || c == '\U{1680}'
    || '\U{2000}' <= c <= '\U{200A}' || c == '\U{2028}' || c == '\U{2029}' || c == '\U{202F}' || c == '\U{205F}'
    || c == '\U{3000}'
  }

  function TrimSpace(s: string): string {
    if s != "" && IsSpace(s[0]) then TrimSpace(s[1..])
    else if s != "" && IsSpace(s[|s| - 1]) then TrimSpace(s[..|s| - 1])
    else s
  }

  /** The parts of a string between slashes. */
  function Split(s: string): (parts: seq<string>)
    ensures parts != []
  {
    if s == "" then [""] else
      var parts, c := Split(s[..|s| - 1]), s[|s| - 1];
      if c == '/' then parts + [""] else parts[..|parts| - 1] + [parts[|parts| - 1] + [c]]
  }

  /** The value of a digit, 36 if it is none. */
  function DigitOf(c: char): nat {
    if '0' <= c <= '9' then c as nat - '0' as nat
    else if 'a' <= c <= 'z' then c as nat - 'a' as nat + 10
    else if 'A' <= c <= 'Z' then c as nat - 'A' as nat + 10
    else 36
  }

  /** What was read last. */
  datatype Last = Digit | Separator | Other

  datatype Scanned = Scanned(value: nat, count: nat, last: Last, invalid: bool, rest: string)

  /** Reads digits of a base; an underscore may separate them. */
  function Scan(s: string, base: nat, value: nat, count: nat, last: Last, invalid: bool): Scanned {
    if s == "" then Scanned(value, count, last, invalid, s)
    else if s[0] == '_' then Scan(s[1..], base, value, count, Separator, invalid || last != Digit)
    else if base <= DigitOf(s[0]) then Scanned(value, count, last, invalid, s)
    else Scan(s[1..], base, value * base + DigitOf(s[0]), count + 1, Digit, invalid)
  }

  /** Accepts a scan that found digits, no misplaced underscore, and nothing after them. */
  function Accept(scan: Scanned, octal: bool): Option<nat> {
    if scan.invalid || scan.last == Separator || (scan.count == 0 && !octal) || scan.rest != "" then None
    else Some(scan.value)
  }

  /** An unsigned number whose prefix, if any, gives its base. */
  function ParseNat(s: string): Option<nat> {
    if s == "" || s[0] != '0' then Accept(Scan(s, 10, 0, 0, Other, false), false)
    else if |s| == 1 then Some(0)
    else if s[1] == 'b' || s[1] == 'B' then Accept(Scan(s[2..], 2, 0, 0, Digit, false), false)
    else if s[1] == 'o' || s[1] == 'O' then Accept(Scan(s[2..], 8, 0, 0, Digit, false), false)
    else if s[1] == 'x' || s[1] == 'X' then Accept(Scan(s[2..], 16, 0, 0, Digit, false), false)
    else Accept(Scan(s[1..], 8, 0, 0, Digit, false), true)
  }

  function ParseInt(s: string): Option<int> {
    var signed := s != "" && (s[0] == '-' || s[0] == '+');
    var n := ParseNat(if signed then s[1..] else s);
    if n.None? then None else
      var value: int := n.value;
      Some(if signed && s[0] == '-' then -value else value)
  }

  /** One component: a number, hardened if an apostrophe follows. */
  function ParseComponent(component: string): (r: Option<nat>)
    ensures r.Some? ==> r.value <= 0xFFFF_FFFF
  {
    var trimmed := TrimSpace(component);
    var hardened := trimmed != "" && trimmed[|trimmed| - 1] == '\'';
    var base := if hardened then 0x8000_0000 else 0;
    var n := ParseInt(if hardened then TrimSpace(trimmed[..|trimmed| - 1]) else trimmed);
    if n.None? || n.value < 0 || 0xFFFF_FFFF - base < n.value then None else Some(base + n.value)
  }

  function ParseAll(components: seq<string>): (r: Option<seq<nat>>)
    ensures r.Some? ==>
              |r.value| == |components| && forall i :: 0 <= i < |components| ==>
                Some(r.value[i]) == ParseComponent(components[i])
    ensures r.None? <==> exists i :: 0 <= i < |components| && ParseComponent(components[i]).None?
  {
    if components == [] then Some([]) else
      var front, last := ParseAll(components[..|components| - 1]), ParseComponent(components[|components| - 1]);
      if front.None? || last.None? then None else Some(front.value + [last.value])
  }

  const DefaultRoot: seq<nat> := [0x8000_002C, 0x8000_003C, 0x8000_0000, 0]

  /** An absolute path starts with m; a relative one continues the default root. */
  function Parse(path: string): Option<seq<nat>> {
    var components := Split(path);
    var first := TrimSpace(components[0]);
    if first == "" then None
    else if first == "m" then
      if |components| == 1 then None else ParseAll(components[1..])
    else
      var rest := ParseAll(components);
      if rest.None? then None else Some(DefaultRoot + rest.value)
  }

  function Digits(n: nat): (s: string)
    ensures s != "" && forall i :: 0 <= i < |s| ==> '0' <= s[i] <= '9'
    ensures n != 0 ==> s[0] != '0'
  {
    if n < 10 then ['0' + n as char] else Digits(n / 10) + ['0' + (n % 10) as char]
  }

  function PrintComponent(c: nat): string {
    if 0x8000_0000 <= c then Digits(c - 0x8000_0000) + "'" else Digits(c)
  }

  function Print(path: seq<nat>): string {
    if path == [] then "m" else Print(path[..|path| - 1]) + "/" + PrintComponent(path[|path| - 1])
  }

  /** Reading printed digits gives back the number and leaves what follows them. */
  lemma {:induction false} ScanDigits(n: nat, rest: string)
    ensures Scan(Digits(n) + rest, 10, 0, 0, Other, false) == Scan(rest, 10, n, |Digits(n)|, Digit, false)
  {
    var c := '0' + (n % 10) as char;
    assert ([c] + rest)[1..] == rest && DigitOf(c) == n % 10;
    if n < 10 {
      assert Digits(n) + rest == [c] + rest;
    } else {
      ScanDigits(n / 10, [c] + rest);
      assert Digits(n) + rest == Digits(n / 10) + ([c] + rest);
    }
  }

  lemma ParseDigits(n: nat)
    ensures ParseInt(Digits(n)) == Some(n)
  {
    var s := Digits(n);
    if n == 0 {
      assert s == "0";
    } else {
      ScanDigits(n, "");
      assert s + "" == s;
    }
    assert '0' <= s[0] <= '9';
  }

  lemma NothingToTrim(s: string)
    requires s != "" && !IsSpace(s[0]) && !IsSpace(s[|s| - 1])
    ensures TrimSpace(s) == s
  {
  }

  /** A printed component contains no slash and no white space at its ends, and reads back as it was. */
  lemma ComponentRoundTrip(c: nat)
    requires c <= 0xFFFF_FFFF
    ensures ParseComponent(PrintComponent(c)) == Some(c)
    ensures PrintComponent(c) != "" && forall i :: 0 <= i < |PrintComponent(c)| ==> PrintComponent(c)[i] != '/'
  {
    var s := PrintComponent(c);
    NothingToTrim(s);
    if 0x8000_0000 <= c {
      var digits := Digits(c - 0x8000_0000);
      assert s[..|s| - 1] == digits;
      NothingToTrim(digits);
      ParseDigits(c - 0x8000_0000);
    } else {
      ParseDigits(c);
    }
  }

  lemma {:induction false} SplitPart(s: string, part: string)
    requires forall i :: 0 <= i < |part| ==> part[i] != '/'
    ensures Split(s + "/" + part) == Split(s) + [part]
  {
    var all := s + "/" + part;
    if part == "" {
      assert all[..|all| - 1] == s;
    } else {
      var front := part[..|part| - 1];
      SplitPart(s, front);
      assert all[..|all| - 1] == s + "/" + front;
      assert part == front + [part[|part| - 1]];
    }
  }

  /** The parts of a printed path are the letter m and the printed components. */
  ghost predicate PartsOf(parts: seq<string>, path: seq<nat>) {
    && |parts| == |path| + 1 && parts[0] == "m"
    && forall i :: 0 <= i < |path| ==> parts[i + 1] == PrintComponent(path[i])
  }

  lemma OneMorePart(parts: seq<string>, path: seq<nat>, c: nat)
    requires PartsOf(parts, path)
    ensures PartsOf(parts + [PrintComponent(c)], path + [c])
  {
  }

  lemma {:induction false} SplitPrinted(path: seq<nat>)
    requires Fits(path)
    ensures PartsOf(Split(Print(path)), path)
  {
    if path == [] {
      assert "m"[..0] == "";
    } else {
      var front, last := path[..|path| - 1], path[|path| - 1];
      SplitPrinted(front);
      ComponentRoundTrip(last);
      SplitPart(Print(front), PrintComponent(last));
      OneMorePart(Split(Print(front)), front, last);
      assert path == front + [last];
    }
  }

  /** Parsing what was printed gives back every non-empty path. */
  lemma RoundTrip(path: seq<nat>)
    requires path != [] && Fits(path)
    ensures Parse(Print(path)) == Some(path)
  {
    SplitPrinted(path);
    NothingToTrim("m");
    var parts := Split(Print(path))[1..];
    forall i | 0 <= i < |parts| ensures ParseComponent(parts[i]) == Some(path[i]) {
      ComponentRoundTrip(path[i]);
    }
    assert ParseAll(parts).value == path;
  }

  /** Whatever parses, prints and parses to the same path again. */
  lemma ReparseIsNoOp(s: string)
    requires Parse(s).Some?
    ensures Parse(s).value != [] && Fits(Parse(s).value)
    ensures Parse(Print(Parse(s).value)) == Parse(s)
  {
    RoundTrip(Parse(s).value);
  }

  /** Parses the components one by one, onto what is there already. */
  method AppendComponents(result0: seq<nat>, components: seq<string>) returns (r: Option<seq<nat>>)
    ensures r == var parsed := ParseAll(components); if parsed.None? then None else Some(result0 + parsed.value)
  {
    var result := result0;
    for i := 0 to |components|
      invariant ParseAll(components[..i]).Some? && result == result0 + ParseAll(components[..i]).value
    {
      assert components[..i + 1][..i] == components[..i];
      var value := ParseComponent(components[i]);
      if value.None? {
        return None;
      }
      result := result + [value.value];
    }
    assert components[..|components|] == components;
    r := Some(result);
  }

  method ParseDerivationPath(path: string) returns (r: Option<seq<nat>>)
    ensures r == Parse(path)
  {
    var components, result: seq<nat> := Split(path), [];
    var first := TrimSpace(components[0]);
    if first == "" {
      return None;
    }
    if first == "m" {
      components := components[1..];
    } else {
      result := DefaultRoot;
    }
    if |components| == 0 {
      return None;
    }
    r := AppendComponents(result, components);
    ghost var parsed := ParseAll(components);
    assert parsed.Some? ==> [] + parsed.value == parsed.value;
  }

  method String(path: seq<nat>) returns (s: string)
    ensures s == Print(path)
  {
    s := "m";
    for i := 0 to |path|
      invariant s == Print(path[..i])
    {
      var component, hardened := path[i], false;
      if 0x8000_0000 <= component {
        component, hardened := component - 0x8000_0000, true;
      }
      assert path[..i + 1][..i] == path[..i];
      s := s + "/" + Digits(component);
      if hardened {
        s := s + "'";
      }
    }
    assert path[..|path|] == path;
  }
}
