/**
 * The Ruby values the helpers exchange (parsed JSON, task option hashes, SSH option
 * hashes) and the few core-library operations on them that the code relies on:
 * `to_s`, `String#to_i`, `String#chomp`, `Array#join` and `Hash#[]=`.
 *
 * A Ruby Hash is an ordered list of entries with pairwise distinct keys; `Store`
 * is `h[k] = v`: it overwrites the value in place when the key is present (the
 * key keeps its insertion position) and appends the entry otherwise.
 */
module RubyValues {
  import opened Wrappers

  datatype Scalar = Nil | Bool(b: bool) | Int(i: int) | Str(s: string) | Sym(name: string)

  datatype Value = Atom(a: Scalar) | List(items: seq<Value>) | Hash(entries: seq<Entry>)

  datatype Entry = Entry(key: Scalar, val: Value)

  // ---------------------------------------------------------------------------
  // Integers as text

  predicate IsDigit(c: char) { '0' <= c <= '9' }

  function DigitValue(c: char): (d: nat)
    requires IsDigit(c)
    ensures d < 10
  {
    (c as int) - ('0' as int)
  }

  function DigitChar(d: nat): (c: char)
    requires d < 10
    ensures IsDigit(c) && DigitValue(c) == d
  {
    (('0' as int) + d) as char
  }

  /** Decimal digits of `n`, most significant first, no leading zero. */
  function NatToS(n: nat): (s: string)
    ensures |s| > 0 && forall i :: 0 <= i < |s| ==> IsDigit(s[i])
    ensures |s| > 1 ==> s[0] != '0'
  {
    if n < 10 then [DigitChar(n)] else NatToS(n / 10) + [DigitChar(n % 10)]
  }

  /** `Integer#to_s`. */
  function IntToS(n: int): string {
    if n < 0 then "-" + NatToS(-n) else NatToS(n)
  }

  /** The white space `String#to_i` skips before the number. */
  predicate IsSpace(c: char) { c == ' ' || c == '\t' || c == '\n' || c == '\r' || c == '\U{B}' || c == '\U{C}' }

  function SkipSpace(s: string): (t: string)
    ensures |t| <= |s| && t == s[|s| - |t|..]
    ensures |t| > 0 ==> !IsSpace(t[0])
  {
    if |s| > 0 && IsSpace(s[0]) then SkipSpace(s[1..]) else s
  }

  /**
   * Continues a decimal number whose value so far is `acc`: digits are consumed, and
   * an underscore is skipped when a digit follows it; anything else ends the number.
   */
  function DigitsFrom(s: string, acc: nat): nat
    decreases |s|
  {
    if |s| > 0 && IsDigit(s[0]) then DigitsFrom(s[1..], acc * 10 + DigitValue(s[0]))
    else if |s| > 1 && s[0] == '_' && IsDigit(s[1]) then DigitsFrom(s[1..], acc)
    else acc
  }

  /** `0d` or `0D`, the decimal prefix base-10 `to_i` accepts after the sign. */
  predicate HasDecimalPrefix(s: string) {
    |s| >= 2 && s[0] == '0' && (s[1] == 'd' || s[1] == 'D')
  }

  /** An unsigned number, after an optional decimal prefix; 0 when no digit starts it. */
  function Unsigned(s: string): nat {
    var digits := if HasDecimalPrefix(s) then s[2..] else s;
    if |digits| > 0 && IsDigit(digits[0]) then DigitsFrom(digits, 0) else 0
  }

  /** `String#to_i` (base 10): 0 when the text does not start with a number. */
  function ToI(s: string): int {
    var t := SkipSpace(s);
    if |t| > 0 && t[0] == '-' then -(Unsigned(t[1..]) as int)
    else if |t| > 0 && t[0] == '+' then Unsigned(t[1..])
    else Unsigned(t)
  }

  lemma {:induction false} DigitsFromSnoc(s: string, c: char, acc: nat)
    requires forall i :: 0 <= i < |s| ==> IsDigit(s[i])
    requires IsDigit(c)
    ensures DigitsFrom(s + [c], acc) == DigitsFrom(s, acc) * 10 + DigitValue(c)
    decreases |s|
  {
    if s == [] {
      assert DigitsFrom([c][1..], acc * 10 + DigitValue(c)) == acc * 10 + DigitValue(c);
    } else {
      assert (s + [c])[1..] == s[1..] + [c];
      DigitsFromSnoc(s[1..], c, acc * 10 + DigitValue(s[0]));
    }
  }

  lemma {:induction false} DigitsOfNatToS(n: nat)
    ensures DigitsFrom(NatToS(n), 0) == n
  {
    if n >= 10 {
      DigitsOfNatToS(n / 10);
      DigitsFromSnoc(NatToS(n / 10), DigitChar(n % 10), 0);
    }
  }

  lemma UnsignedOfNatToS(n: nat)
    ensures Unsigned(NatToS(n)) == n
  {
    var s := NatToS(n);
    assert !HasDecimalPrefix(s) by {
      if |s| >= 2 { assert IsDigit(s[1]); }
    }
    DigitsOfNatToS(n);
  }

  lemma ToINegative(s: string)
    requires |s| > 0 && s[0] == '-'
    ensures ToI(s) == -(Unsigned(s[1..]) as int)
  {
    assert SkipSpace(s) == s;
  }

  lemma ToIUnsigned(s: string)
    requires |s| > 0 && IsDigit(s[0])
    ensures ToI(s) == Unsigned(s)
  {
    assert !IsSpace(s[0]);
    assert SkipSpace(s) == s;
    assert s[0] != '-' && s[0] != '+';
  }

  /** A decimal prefix in front of the digits changes nothing. */
  lemma DecimalPrefix(n: nat, prefix: string)
    requires prefix == "0d" || prefix == "0D"
    ensures ToI(prefix + NatToS(n)) == n
  {
    var s := prefix + NatToS(n);
    assert SkipSpace(s) == s;
    assert HasDecimalPrefix(s) && s[2..] == NatToS(n);
    DigitsOfNatToS(n);
  }

  lemma ToIOfNatToS(m: nat)
    ensures ToI(NatToS(m)) == m
  {
    var digits := NatToS(m);
    UnsignedOfNatToS(m);
    ToIUnsigned(digits);
  }

  lemma ToIOfNegative(m: nat)
    ensures ToI("-" + NatToS(m)) == -(m as int)
  {
    var digits := NatToS(m);
    UnsignedOfNatToS(m);
    var s := "-" + digits;
    assert s[1..] == digits;
    ToINegative(s);
  }

  /** `to_i` reads back every integer `to_s` writes. */
  lemma {:induction false} ToIOfIntToS(n: int)
    ensures ToI(IntToS(n)) == n
  {
    if n < 0 {
      ToIOfNegative(-n);
    } else {
      ToIOfNatToS(n);
    }
  }

  /** Ruby's `to_s` of a hash key or of an interpolated scalar. */
  function ScalarToS(k: Scalar): string {
    match k
    case Nil => ""
    case Bool(b) => if b then "true" else "false"
    case Int(i) => IntToS(i)
    case Str(s) => s
    case Sym(name) => name
  }

  /**
   * The text `"#{v}"` inserts. Arrays and hashes interpolate as their `inspect`
   * form, which is not modelled (they give the empty string here).
   */
  function Interpolate(v: Value): string {
    if v.Atom? then ScalarToS(v.a) else ""
  }

  // ---------------------------------------------------------------------------
  // Strings

  predicate EndsWithLineBreak(s: string) { |s| > 0 && (s[|s| - 1] == '\n' || s[|s| - 1] == '\r') }

  /** `String#chomp` without argument: removes one trailing "\r\n", "\n" or "\r". */
  function Chomp(s: string): (r: string)
    ensures r == s || r + "\n" == s || r + "\r" == s || r + "\r\n" == s
    ensures !EndsWithLineBreak(s) ==> r == s
    ensures EndsWithLineBreak(s) ==> |r| < |s|
  {
    if |s| >= 2 && s[|s| - 2..] == "\r\n" then s[..|s| - 2]
    else if EndsWithLineBreak(s) then s[..|s| - 1]
    else s
  }

  lemma ChompCrLf(line: string)
    ensures Chomp(line + "\r\n") == line
  {
    var s := line + "\r\n";
    assert s[|s| - 2..] == "\r\n";
    assert s[..|s| - 2] == line;
  }

  lemma ChompOneBreak(line: string, c: char)
    requires !EndsWithLineBreak(line)
    requires c == '\n' || c == '\r'
    ensures Chomp(line + [c]) == line
  {
    var s := line + [c];
    assert s[|s| - 1] == c;
    if |s| >= 2 {
      assert s[|s| - 2] == line[|line| - 1];
      assert s[|s| - 2..] == [line[|line| - 1], c];
    }
    assert s[..|s| - 1] == line;
  }

  /** Chomp takes back exactly one line ending of any of the three kinds. */
  lemma ChompLineEnding(line: string, ending: string)
    requires !EndsWithLineBreak(line)
    requires ending == "" || ending == "\n" || ending == "\r" || ending == "\r\n"
    ensures Chomp(line + ending) == line
  {
    if ending == "\r\n" {
      ChompCrLf(line);
    } else if ending == "\n" {
      ChompOneBreak(line, '\n');
    } else if ending == "\r" {
      ChompOneBreak(line, '\r');
    } else {
      assert line + ending == line;
    }
  }

  /** `Array#join(sep)` over strings. */
  function Join(xs: seq<string>, sep: string): string {
    if xs == [] then "" else if |xs| == 1 then xs[0] else xs[0] + sep + Join(xs[1..], sep)
  }

  // ---------------------------------------------------------------------------
  // Hashes as ordered entry lists

  function KeySet(h: seq<Entry>): set<Scalar> {
    if h == [] then {} else {h[0].key} + KeySet(h[1..])
  }

  /** A well-formed Ruby hash: no key occurs twice. */
  predicate DistinctKeys(h: seq<Entry>) {
    h == [] || (h[0].key !in KeySet(h[1..]) && DistinctKeys(h[1..]))
  }

  lemma {:induction false} KeySetAppend(a: seq<Entry>, b: seq<Entry>)
    ensures KeySet(a + b) == KeySet(a) + KeySet(b)
  {
    if a == [] {
      assert a + b == b;
    } else {
      assert (a + b)[1..] == a[1..] + b;
      KeySetAppend(a[1..], b);
    }
  }

  lemma {:induction false} KeySetMembers(h: seq<Entry>, k: Scalar)
    ensures k in KeySet(h) <==> exists i :: 0 <= i < |h| && h[i].key == k
  {
    if h != [] {
      KeySetMembers(h[1..], k);
      if k in KeySet(h[1..]) {
        var i :| 0 <= i < |h[1..]| && h[1..][i].key == k;
        assert h[i + 1].key == k;
      }
      if exists i :: 0 <= i < |h| && h[i].key == k {
        var i :| 0 <= i < |h| && h[i].key == k;
        if i > 0 { assert h[1..][i - 1].key == k; }
      }
    }
  }

  /** The keys of a three-entry hash literal, which is well formed when they differ. */
  lemma KeySetOfThree(x: Entry, y: Entry, z: Entry)
    ensures KeySet([x, y, z]) == {x.key, y.key, z.key}
    ensures x.key != y.key && x.key != z.key && y.key != z.key ==> DistinctKeys([x, y, z])
  {
    assert [x, y, z][1..] == [y, z];
    assert [y, z][1..] == [z];
    assert [z][1..] == [];
    assert KeySet([z]) == {z.key};
    assert KeySet([y, z]) == {y.key, z.key};
    assert DistinctKeys([z]);
  }

  /** A one-entry hash literal. */
  lemma HashOfOne(x: Entry)
    ensures KeySet([x]) == {x.key} && DistinctKeys([x])
    ensures At(Hash([x]), x.key) == x.val
  {
    assert [x][1..] == [];
  }

  /** A three-entry hash literal with distinct keys: its keys, and what each key looks up. */
  lemma HashOfThree(x: Entry, y: Entry, z: Entry)
    requires x.key != y.key && x.key != z.key && y.key != z.key
    ensures KeySet([x, y, z]) == {x.key, y.key, z.key} && DistinctKeys([x, y, z])
    ensures At(Hash([x, y, z]), x.key) == x.val
    ensures At(Hash([x, y, z]), y.key) == y.val
    ensures At(Hash([x, y, z]), z.key) == z.val
  {
    KeySetOfThree(x, y, z);
    assert [x, y, z][1..] == [y, z];
    assert [y, z][1..] == [z];
  }

  /** `h[k]` as an option: None stands for an absent key. */
  function Get(h: seq<Entry>, k: Scalar): (r: Option<Value>)
    ensures r.Some? <==> k in KeySet(h)
    ensures r.Some? ==> Entry(k, r.value) in h
  {
    if h == [] then None else if h[0].key == k then Some(h[0].val) else Get(h[1..], k)
  }

  /** `v[k]` on a value that should be a hash: nil when it is not one or lacks the key. */
  function At(v: Value, k: Scalar): (r: Value)
    ensures v.Hash? && k in KeySet(v.entries) ==> Entry(k, r) in v.entries
    ensures !v.Hash? || k !in KeySet(v.entries) ==> r == Atom(Nil)
  {
    if v.Hash? then
      var found := Get(v.entries, k);
      if found.Some? then found.value else Atom(Nil)
    else Atom(Nil)
  }

  /** `h[k] = v`. */
  function Store(h: seq<Entry>, k: Scalar, v: Value): (r: seq<Entry>)
    ensures KeySet(r) == KeySet(h) + {k}
    ensures Get(r, k) == Some(v)
    ensures forall k' :: k' != k ==> Get(r, k') == Get(h, k')
    ensures k !in KeySet(h) ==> r == h + [Entry(k, v)]
  {
    if h == [] then [Entry(k, v)]
    else if h[0].key == k then [Entry(k, v)] + h[1..]
    else
      var rest := Store(h[1..], k, v);
      assert ([h[0]] + rest)[1..] == rest;
      [h[0]] + rest
  }

  /** Assigning to a key keeps the hash well formed. */
  lemma {:induction false} StoreKeepsDistinct(h: seq<Entry>, k: Scalar, v: Value)
    requires DistinctKeys(h)
    ensures DistinctKeys(Store(h, k, v))
  {
    if h != [] && h[0].key != k {
      StoreKeepsDistinct(h[1..], k, v);
      assert Store(h, k, v)[1..] == Store(h[1..], k, v);
    }
  }

  /** Assigning to a present key keeps every key where it was: only that value changes. */
  lemma {:induction false} StoreInPlace(h: seq<Entry>, k: Scalar, v: Value)
    requires k in KeySet(h)
    ensures |Store(h, k, v)| == |h|
    ensures forall i :: 0 <= i < |h| ==> Store(h, k, v)[i].key == h[i].key
  {
    if h[0].key != k {
      StoreInPlace(h[1..], k, v);
    }
  }
}
