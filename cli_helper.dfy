/**
 * `Lima::CliHelper`: the wrapper around the `limactl` command line.
 *
 * Every `Open3.capture3` call is replaced by what it returned, given as a
 * parameter (`Exec`, `ShowSsh`); the shell words of `show-ssh` output and the
 * result of `JSON.parse` are given already split or parsed. What stays is the
 * deterministic part: which commands are issued with which argv, how their
 * output is turned into values, which errors are raised, and the two memo
 * fields `@lima_info` and `@ssh_info`.
 */
module Lima {
  import opened Wrappers
  import opened RubyValues

  // ===========================================================================
  // `ssh_info` parsing: shell words `key=value` to an options hash

  /** A hash of SSH options, keyed by option name. */
  type SshOptions = map<string, Value>

  /** Every token carries an `=`, as every `show-ssh --format options` word does. */
  predicate Assignments(tokens: seq<string>) {
    forall i :: 0 <= i < |tokens| ==> '=' in tokens[i]
  }

  /** `token.split('=', 2)`: the text before the first `=` and everything after it. */
  function SplitAtFirst(token: string): (p: (string, string))
    requires '=' in token
    ensures token == p.0 + "=" + p.1 && '=' !in p.0
  {
    if token[0] == '=' then ("", token[1..])
    else
      assert '=' in token[1..];
      var rest := SplitAtFirst(token[1..]);
      ([token[0]] + rest.0, rest.1)
  }

  /** Splitting undoes `key + "=" + value` for every key without `=`: the value may hold `=`. */
  lemma {:induction false} SplitAtFirstOfJoin(key: string, value: string)
    requires '=' !in key
    ensures SplitAtFirst(key + "=" + value) == (key, value)
  {
    var token := key + "=" + value;
    if key != [] {
      assert key[0] in key;
      assert token[0] == key[0] != '=';
      assert token[1..] == key[1..] + "=" + value;
      assert forall c :: c in key[1..] ==> c in key;
      SplitAtFirstOfJoin(key[1..], value);
      assert [key[0]] + key[1..] == key;
    } else {
      assert token[1..] == value;
    }
  }

  function KeyOf(token: string): string
    requires '=' in token
  {
    SplitAtFirst(token).0
  }

  function ValueOf(token: string): string
    requires '=' in token
  {
    SplitAtFirst(token).1
  }

  function TokenKeys(tokens: seq<string>): set<string> {
    set t | t in tokens && '=' in t :: KeyOf(t)
  }

  /** The `IdentityFile` values, in input order. */
  function IdentityFiles(tokens: seq<string>): seq<string>
    requires Assignments(tokens)
  {
    if tokens == [] then []
    else (if KeyOf(tokens[0]) == "IdentityFile" then [ValueOf(tokens[0])] else []) + IdentityFiles(tokens[1..])
  }

  /** `Hash[*pairs.flatten]`: one entry per key, the last value given for a key wins. */
  function LastValues(tokens: seq<string>): map<string, string>
    requires Assignments(tokens)
  {
    if tokens == [] then map[]
    else
      var last := tokens[|tokens| - 1];
      LastValues(tokens[..|tokens| - 1])[KeyOf(last) := ValueOf(last)]
  }

  function StrList(xs: seq<string>): (r: seq<Value>)
    ensures |r| == |xs| && forall i :: 0 <= i < |xs| ==> r[i] == Atom(Str(xs[i]))
  {
    seq(|xs|, i requires 0 <= i < |xs| => Atom(Str(xs[i])))
  }

  /** The options hash `ssh_info` builds from the shell words of non-empty output. */
  function ParseSshOptions(tokens: seq<string>): (r: SshOptions)
    requires Assignments(tokens)
  {
    var base := LastValues(tokens);
    var opts := map k | k in base :: Atom(Str(base[k]));
    opts["IdentityFile" := List(StrList(IdentityFiles(tokens)))]
        ["Port" := Atom(Int(if "Port" in base then ToI(base["Port"]) else 0))]
  }

  /** Collecting identity files distributes over concatenation: input order is kept. */
  lemma {:induction false} IdentityFilesAppend(a: seq<string>, b: seq<string>)
    requires Assignments(a) && Assignments(b)
    ensures Assignments(a + b)
    ensures IdentityFiles(a + b) == IdentityFiles(a) + IdentityFiles(b)
  {
    assert Assignments(a + b) by {
      forall i | 0 <= i < |a + b| ensures '=' in (a + b)[i] {
        if i < |a| {
          assert (a + b)[i] == a[i];
        } else {
          assert (a + b)[i] == b[i - |a|];
        }
      }
    }
    if a == [] {
      assert a + b == b;
    } else {
      assert (a + b)[1..] == a[1..] + b;
      assert Assignments(a[1..]) by {
        forall i | 0 <= i < |a[1..]| ensures '=' in a[1..][i] {
          assert a[1..][i] == a[i + 1];
        }
      }
      IdentityFilesAppend(a[1..], b);
      assert (a + b)[0] == a[0];
    }
  }

  lemma {:induction false} LastValuesKeys(tokens: seq<string>)
    requires Assignments(tokens)
    ensures LastValues(tokens).Keys == TokenKeys(tokens)
  {
    if tokens != [] {
      var n := |tokens|;
      var init := tokens[..n - 1];
      assert Assignments(init);
      LastValuesKeys(init);
      assert tokens == init + [tokens[n - 1]];
      assert TokenKeys(tokens) == TokenKeys(init) + {KeyOf(tokens[n - 1])} by {
        assert forall t :: t in tokens <==> t in init || t == tokens[n - 1];
      }
    }
  }

  /** The value stored for a key is that of the last token carrying the key. */
  lemma {:induction false} LastValueWins(tokens: seq<string>, i: nat)
    requires Assignments(tokens)
    requires i < |tokens|
    requires forall j :: i < j < |tokens| ==> KeyOf(tokens[j]) != KeyOf(tokens[i])
    ensures KeyOf(tokens[i]) in LastValues(tokens)
    ensures LastValues(tokens)[KeyOf(tokens[i])] == ValueOf(tokens[i])
  {
    var n := |tokens|;
    if i < n - 1 {
      var init := tokens[..n - 1];
      assert Assignments(init);
      assert init[i] == tokens[i];
      assert forall j :: i < j < |init| ==> init[j] == tokens[j];
      LastValueWins(init, i);
    }
  }

  /** The options hash holds exactly the keys of the tokens, plus `IdentityFile` and `Port`. */
  lemma SshOptionsKeys(tokens: seq<string>)
    requires Assignments(tokens)
    ensures ParseSshOptions(tokens).Keys == TokenKeys(tokens) + {"IdentityFile", "Port"}
  {
    LastValuesKeys(tokens);
  }

  /**
   * A key other than `IdentityFile` and `Port` keeps the value of its last token,
   * as a string, even when that value contains `=`.
   */
  lemma SshOptionsLastWins(tokens: seq<string>, i: nat)
    requires Assignments(tokens)
    requires i < |tokens|
    requires KeyOf(tokens[i]) != "IdentityFile" && KeyOf(tokens[i]) != "Port"
    requires forall j :: i < j < |tokens| ==> KeyOf(tokens[j]) != KeyOf(tokens[i])
    ensures KeyOf(tokens[i]) in ParseSshOptions(tokens)
    ensures ParseSshOptions(tokens)[KeyOf(tokens[i])] == Atom(Str(ValueOf(tokens[i])))
  {
    LastValueWins(tokens, i);
  }

  /** `Port` is `to_i` of the last `Port` value. */
  lemma SshOptionsPort(tokens: seq<string>, i: nat)
    requires Assignments(tokens)
    requires i < |tokens| && KeyOf(tokens[i]) == "Port"
    requires forall j :: i < j < |tokens| ==> KeyOf(tokens[j]) != "Port"
    ensures ParseSshOptions(tokens)["Port"] == Atom(Int(ToI(ValueOf(tokens[i]))))
  {
    LastValueWins(tokens, i);
  }

  /** Without a `Port` token the port is `nil.to_i`, that is 0. */
  lemma SshOptionsNoPort(tokens: seq<string>)
    requires Assignments(tokens)
    requires forall j :: 0 <= j < |tokens| ==> KeyOf(tokens[j]) != "Port"
    ensures ParseSshOptions(tokens)["Port"] == Atom(Int(0))
  {
    LastValuesKeys(tokens);
    assert "Port" !in TokenKeys(tokens);
  }

  /** `IdentityFile` lists every identity file value, in input order. */
  lemma SshOptionsIdentityFiles(tokens: seq<string>, more: seq<string>)
    requires Assignments(tokens) && Assignments(more)
    ensures Assignments(tokens + more)
    ensures ParseSshOptions(tokens + more)["IdentityFile"]
         == List(ParseSshOptions(tokens)["IdentityFile"].items + ParseSshOptions(more)["IdentityFile"].items)
    ensures ParseSshOptions([])["IdentityFile"] == List([])
  {
    IdentityFilesAppend(tokens, more);
    var a, b := IdentityFiles(tokens), IdentityFiles(more);
    assert StrList(a + b) == StrList(a) + StrList(b);
  }

  /** A value is collected exactly when some token with the key `IdentityFile` carries it. */
  lemma {:induction false} IdentityFilesMembers(tokens: seq<string>, x: string)
    requires Assignments(tokens)
    ensures x in IdentityFiles(tokens) <==>
            exists i :: 0 <= i < |tokens| && KeyOf(tokens[i]) == "IdentityFile" && ValueOf(tokens[i]) == x
  {
    if tokens != [] {
      var rest := tokens[1..];
      assert Assignments(rest) by {
        forall i | 0 <= i < |rest| ensures '=' in rest[i] {
          assert rest[i] == tokens[i + 1];
        }
      }
      IdentityFilesMembers(rest, x);
      if exists i :: 0 <= i < |rest| && KeyOf(rest[i]) == "IdentityFile" && ValueOf(rest[i]) == x {
        var i :| 0 <= i < |rest| && KeyOf(rest[i]) == "IdentityFile" && ValueOf(rest[i]) == x;
        assert tokens[i + 1] == rest[i];
      }
      if exists i :: 0 <= i < |tokens| && KeyOf(tokens[i]) == "IdentityFile" && ValueOf(tokens[i]) == x {
        var i :| 0 <= i < |tokens| && KeyOf(tokens[i]) == "IdentityFile" && ValueOf(tokens[i]) == x;
        if i > 0 {
          assert rest[i - 1] == tokens[i];
        }
      }
    }
  }

  /**
   * The `IdentityFile` list holds exactly the values of the `IdentityFile` tokens,
   * and it is empty when there is no such token.
   */
  lemma SshOptionsIdentityFileValues(tokens: seq<string>, x: string)
    requires Assignments(tokens)
    ensures ParseSshOptions(tokens)["IdentityFile"].List?
    ensures Atom(Str(x)) in ParseSshOptions(tokens)["IdentityFile"].items <==>
            exists i :: 0 <= i < |tokens| && KeyOf(tokens[i]) == "IdentityFile" && ValueOf(tokens[i]) == x
    ensures (forall j :: 0 <= j < |tokens| ==> KeyOf(tokens[j]) != "IdentityFile") ==>
            ParseSshOptions(tokens)["IdentityFile"] == List([])
  {
    var files := IdentityFiles(tokens);
    IdentityFilesMembers(tokens, x);
    assert Atom(Str(x)) in StrList(files) <==> x in files by {
      if x in files {
        var k :| 0 <= k < |files| && files[k] == x;
        assert StrList(files)[k] == Atom(Str(x));
      }
    }
    if forall j :: 0 <= j < |tokens| ==> KeyOf(tokens[j]) != "IdentityFile" {
      if files != [] {
        IdentityFilesMembers(tokens, files[0]);
        assert false;
      }
    }
  }

  /** A single token contributes its value to the list exactly when its key is `IdentityFile`. */
  lemma SshOptionsOneIdentityFile(t: string)
    requires '=' in t
    ensures ParseSshOptions([t])["IdentityFile"]
         == List(if KeyOf(t) == "IdentityFile" then [Atom(Str(ValueOf(t)))] else [])
  {
    assert [t][1..] == [];
    var own := if KeyOf(t) == "IdentityFile" then [ValueOf(t)] else [];
    assert IdentityFiles([t]) == own + IdentityFiles([]);
    assert IdentityFiles([t]) == own;
    assert StrList(own) == if KeyOf(t) == "IdentityFile" then [Atom(Str(ValueOf(t)))] else [];
  }

  // ===========================================================================
  // `stringify_keys_recursively`

  /**
   * The conversion `stringify_keys_recursively` applies to one hash value: a hash
   * is converted, an array has its hash elements converted (and nothing else), any
   * other value is kept.
   */
  function StringifyValue(v: Value): (r: Value)
    ensures v.Atom? ==> r == v
    ensures v.Hash? <==> r.Hash?
    ensures v.List? ==> r.List? && |r.items| == |v.items|
    ensures v.List? ==> forall j :: 0 <= j < |v.items| && !v.items[j].Hash? ==> r.items[j] == v.items[j]
    decreases v, if v.Hash? then |v.entries| + 1 else 0
  {
    match v
    case Hash(es) => Hash(StringifyPrefix(es, |es|))
    case List(xs) => List(seq(|xs|, j requires 0 <= j < |xs| => if xs[j].Hash? then StringifyValue(xs[j]) else xs[j]))
    case Atom(_) => v
  }

  /** The fresh hash after the first `n` iterations of `hash.each`. */
  function StringifyPrefix(h: seq<Entry>, n: nat): seq<Entry>
    requires n <= |h|
    decreases Hash(h), n
  {
    if n == 0 then []
    else
      assert h[n - 1] in h;
      Store(StringifyPrefix(h, n - 1), Str(ScalarToS(h[n - 1].key)), StringifyValue(h[n - 1].val))
  }

  function StringifyKeys(h: seq<Entry>): seq<Entry> {
    StringifyPrefix(h, |h|)
  }

  /** One level of the conversion: a hash converts its entries, an array converts its hash elements. */
  lemma StringifyValueNested(v: Value)
    ensures v.Hash? ==> StringifyValue(v).entries == StringifyKeys(v.entries)
    ensures v.List? ==> forall j :: 0 <= j < |v.items| && v.items[j].Hash? ==>
                          StringifyValue(v).items[j] == StringifyValue(v.items[j])
  {
  }

  /** The `to_s` of every key of `h`, as string keys. */
  function StrKeys(h: seq<Entry>): set<Scalar> {
    if h == [] then {} else StrKeys(h[..|h| - 1]) + {Str(ScalarToS(h[|h| - 1].key))}
  }

  lemma {:induction false} StrKeysMembers(h: seq<Entry>, k: Scalar)
    ensures k in StrKeys(h) <==> exists i :: 0 <= i < |h| && Str(ScalarToS(h[i].key)) == k
  {
    if h != [] {
      var n := |h|;
      StrKeysMembers(h[..n - 1], k);
      if exists i :: 0 <= i < n && Str(ScalarToS(h[i].key)) == k {
        var i :| 0 <= i < n && Str(ScalarToS(h[i].key)) == k;
        if i < n - 1 { assert h[..n - 1][i] == h[i]; }
      }
    }
  }

  /** Every key becomes its `to_s`; the result is a well-formed hash. */
  lemma {:induction false} StringifyKeysKeys(h: seq<Entry>, n: nat)
    requires n <= |h|
    ensures KeySet(StringifyPrefix(h, n)) == StrKeys(h[..n])
    ensures DistinctKeys(StringifyPrefix(h, n))
  {
    if n > 0 {
      StringifyKeysKeys(h, n - 1);
      var prev := StringifyPrefix(h, n - 1);
      assert h[n - 1] in h;
      var k, v := Str(ScalarToS(h[n - 1].key)), StringifyValue(h[n - 1].val);
      assert StringifyPrefix(h, n) == Store(prev, k, v);
      StoreKeepsDistinct(prev, k, v);
      assert KeySet(Store(prev, k, v)) == KeySet(prev) + {k};
      assert h[..n][..n - 1] == h[..n - 1];
      assert h[..n][n - 1] == h[n - 1];
      assert StrKeys(h[..n]) == StrKeys(h[..n - 1]) + {k};
    }
  }

  /**
   * When several keys have the same `to_s` (`:a` and `"a"`), the value of the last
   * one wins; any key's converted value is found under its `to_s`.
   */
  lemma {:induction false} StringifyLastWins(h: seq<Entry>, i: nat, n: nat)
    requires i < n <= |h|
    requires forall j :: i < j < n ==> ScalarToS(h[j].key) != ScalarToS(h[i].key)
    ensures Get(StringifyPrefix(h, n), Str(ScalarToS(h[i].key))) == Some(StringifyValue(h[i].val))
  {
    assert h[i] in h;
    if i < n - 1 {
      assert h[n - 1] in h;
      StringifyLastWins(h, i, n - 1);
    }
  }

  /** The entry a hash entry becomes when no other key has the same `to_s`. */
  function StringifiedEntry(e: Entry): Entry {
    Entry(Str(ScalarToS(e.key)), StringifyValue(e.val))
  }

  /** Without `to_s` collisions, the hash keeps its size and order, entry by entry. */
  lemma {:induction false} StringifyWithoutCollisions(h: seq<Entry>, n: nat)
    requires n <= |h|
    requires forall i, j :: 0 <= i < j < |h| ==> ScalarToS(h[i].key) != ScalarToS(h[j].key)
    ensures StringifyPrefix(h, n) == seq(n, i requires 0 <= i < n => StringifiedEntry(h[i]))
  {
    if n > 0 {
      StringifyWithoutCollisions(h, n - 1);
      StringifyKeysKeys(h, n - 1);
      var k := Str(ScalarToS(h[n - 1].key));
      StrKeysMembers(h[..n - 1], k);
      assert k !in StrKeys(h[..n - 1]);
      assert h[n - 1] in h;
    }
  }

  /**
   * A value `stringify_keys_recursively` leaves alone: hashes are well formed with
   * string keys and normal values, and arrays have normal hash elements.
   */
  predicate Normal(v: Value)
    decreases v
  {
    match v
    case Atom(_) => true
    case List(xs) => forall x | x in xs :: x.Hash? ==> Normal(x)
    case Hash(es) => DistinctKeys(es) && forall e | e in es :: e.key.Str? && Normal(e.val)
  }

  lemma {:induction false} StringifyIsNormal(v: Value)
    ensures Normal(StringifyValue(v))
    decreases v, if v.Hash? then |v.entries| + 1 else 0
  {
    match v
    case Atom(_) =>
    case List(xs) =>
      var r := StringifyValue(v);
      forall x | x in r.items && x.Hash? ensures Normal(x) {
        var j :| 0 <= j < |r.items| && r.items[j] == x;
        assert xs[j] in xs;
        StringifyIsNormal(xs[j]);
      }
    case Hash(es) =>
      StringifyPrefixIsNormal(es, |es|);
  }

  lemma {:induction false} StringifyPrefixIsNormal(h: seq<Entry>, n: nat)
    requires n <= |h|
    ensures Normal(Hash(StringifyPrefix(h, n)))
    decreases Hash(h), n
  {
    if n > 0 {
      var prev, e := StringifyPrefix(h, n - 1), h[n - 1];
      StringifyPrefixIsNormal(h, n - 1);
      assert e in h;
      var v := StringifyValue(e.val);
      StringifyIsNormal(e.val);
      StoreIsNormal(prev, Str(ScalarToS(e.key)), v);
    }
  }

  /** Storing a normal value under a string key keeps a hash normal. */
  lemma StoreIsNormal(h: seq<Entry>, k: Scalar, v: Value)
    requires Normal(Hash(h)) && k.Str? && Normal(v)
    ensures Normal(Hash(Store(h, k, v)))
  {
    StoreKeepsDistinct(h, k, v);
    StoreEntries(h, k, v);
    forall e | e in Store(h, k, v) ensures e.key.Str? && Normal(e.val) {
      if e in h {
        assert Normal(Hash(h));
      } else {
        assert e == Entry(k, v);
      }
    }
  }

  /** Every entry of `Store(h, k, v)` is an entry of `h` or the new one. */
  lemma {:induction false} StoreEntries(h: seq<Entry>, k: Scalar, v: Value)
    ensures forall e | e in Store(h, k, v) :: e in h || e == Entry(k, v)
  {
    if h != [] && h[0].key != k {
      StoreEntries(h[1..], k, v);
      assert Store(h, k, v) == [h[0]] + Store(h[1..], k, v);
    }
  }

  /** A normal value is a fixed point of the conversion. */
  lemma {:induction false} NormalIsFixed(v: Value)
    requires Normal(v)
    ensures StringifyValue(v) == v
    decreases v, if v.Hash? then |v.entries| + 1 else 0
  {
    match v
    case Atom(_) =>
    case List(xs) =>
      var r := StringifyValue(v);
      forall j | 0 <= j < |xs| ensures r.items[j] == xs[j] {
        assert xs[j] in xs;
        if xs[j].Hash? { NormalIsFixed(xs[j]); }
      }
    case Hash(es) =>
      NormalPrefixIsFixed(es, |es|);
      assert es[..|es|] == es;
  }

  lemma {:induction false} NormalPrefixIsFixed(h: seq<Entry>, n: nat)
    requires n <= |h|
    requires Normal(Hash(h))
    ensures StringifyPrefix(h, n) == h[..n]
    decreases Hash(h), n
  {
    if n > 0 {
      NormalPrefixIsFixed(h, n - 1);
      var e := h[n - 1];
      assert e in h;
      assert e.key.Str? && Normal(e.val);
      NormalIsFixed(e.val);
      var k := Str(ScalarToS(e.key));
      assert k == e.key;
      DistinctLast(h, n);
      var prev := h[..n - 1];
      assert StringifyPrefix(h, n) == Store(prev, k, e.val);
      assert Store(prev, k, e.val) == prev + [e];
      PrefixSnoc(h, n);
    }
  }

  lemma PrefixSnoc(h: seq<Entry>, n: nat)
    requires 0 < n <= |h|
    ensures h[..n] == h[..n - 1] + [h[n - 1]]
  {
  }

  /** In a well-formed hash, the key of entry `n - 1` does not occur before it. */
  lemma {:induction false} DistinctLast(h: seq<Entry>, n: nat)
    requires DistinctKeys(h)
    requires 0 < n <= |h|
    ensures h[n - 1].key !in KeySet(h[..n - 1])
  {
    if n > 1 {
      DistinctLast(h[1..], n - 1);
      assert h[..n - 1] == [h[0]] + h[1..][..n - 2];
      assert h[..n - 1][1..] == h[1..][..n - 2];
      KeySetMembers(h[1..], h[n - 1].key);
      assert h[1..][n - 2] == h[n - 1];
    }
  }

  /** Converting twice is converting once. */
  lemma StringifyIdempotent(v: Value)
    ensures StringifyValue(StringifyValue(v)) == StringifyValue(v)
  {
    StringifyIsNormal(v);
    NormalIsFixed(StringifyValue(v));
  }

  /**
   * `stringify_keys_recursively(hash)`: iterates over the hash, storing each
   * converted value under the key's `to_s` in a fresh hash, and recurses into
   * hashes and into the hash elements of arrays.
   */
  method StringifyKeysRecursively(hash: seq<Entry>) returns (stringified: seq<Entry>)
    ensures stringified == StringifyKeys(hash)
    decreases Hash(hash), 0
  {
    stringified := [];
    var i := 0;
    while i < |hash|
      invariant 0 <= i <= |hash|
      invariant stringified == StringifyPrefix(hash, i)
    {
      var e := hash[i];
      assert e in hash;
      var v := StringifyEntryValue(e.val);
      StringifyPrefixStep(hash, i);
      stringified := Store(stringified, Str(ScalarToS(e.key)), v);
      i := i + 1;
    }
  }

  /** Iteration `n` of `hash.each` stores entry `n` into the prefix built so far. */
  lemma StringifyPrefixStep(h: seq<Entry>, n: nat)
    requires n < |h|
    ensures StringifyPrefix(h, n + 1) == Store(StringifyPrefix(h, n), Str(ScalarToS(h[n].key)), StringifyValue(h[n].val))
  {
  }

  /** The value stored for one entry: a hash recurses, an array maps, anything else is kept. */
  method StringifyEntryValue(v: Value) returns (r: Value)
    ensures r == StringifyValue(v)
    decreases v, 1
  {
    match v {
      case Hash(es) =>
        var inner := StringifyKeysRecursively(es);
        r := Hash(inner);
      case List(xs) =>
        var items := StringifyItems(xs);
        r := List(items);
      case Atom(_) =>
        r := v;
    }
  }

  /** The inner `v.map { … }`: hash elements are converted, other elements are kept. */
  method StringifyItems(xs: seq<Value>) returns (items: seq<Value>)
    ensures items == StringifyValue(List(xs)).items
    decreases List(xs), 0
  {
    ghost var target := StringifyValue(List(xs)).items;
    items := [];
    var j := 0;
    while j < |xs|
      invariant 0 <= j <= |xs|
      invariant items == target[..j]
    {
      var x := xs[j];
      assert x in xs;
      assert target[..j + 1] == target[..j] + [target[j]];
      if x.Hash? {
        var inner := StringifyKeysRecursively(x.entries);
        assert target[j] == StringifyValue(x) == Hash(inner);
        items := items + [Hash(inner)];
      } else {
        items := items + [x];
      }
      j := j + 1;
    }
    assert target[..|xs|] == target;
  }

  // ===========================================================================
  // Commands and their outcome

  /** What one `Open3.capture3` call returned. */
  datatype Exec = Exec(stdout: string, stderr: string, success: bool, exitstatus: int)

  /**
   * What `limactl show-ssh --format options NAME` returned; `tokens` is
   * `Shellwords.shellwords(stdout)`.
   */
  datatype ShowSsh = ShowSsh(stdout: string, tokens: seq<string>, stderr: string, exitstatus: int)

  /** A `show-ssh` result the parser accepts: non-empty output is made of `key=value` words. */
  predicate Parsable(out: ShowSsh) {
    out.stdout != "" ==> Assignments(out.tokens)
  }

  /** The commands a call issued, the config it wrote to the temporary YAML file, and its result. */
  datatype Run = Run(commands: seq<seq<string>>, config: Option<seq<Entry>>, result: Result<bool, string>)

  /** The `url` and `config` entries of `create`'s cfg hash; `None` is nil. */
  datatype CreateOptions = CreateOptions(url: Option<string>, config: Option<seq<Entry>>)

  /** The `:limactl_path` and `:timeout` options of `CliHelper.new`; `None` is nil. */
  datatype HelperOptions = HelperOptions(limactlPath: Option<string>, timeout: Option<int>)

  const DefaultLimactl: string := "limactl"
  const DefaultTimeout: int := 600

  /** The text of the `LimaError` raised (or warning logged) when a command fails. */
  function FailureMessage(command: seq<string>, stderr: string, exitstatus: int): string {
    "`" + Join(command, " ") + "` failed with status " + IntToS(exitstatus) + ": " + stderr
  }

  function NotFound(name: string): string { "Instance '" + name + "' not found!" }
  function AlreadyExists(name: string): string { "Instance '" + name + "' already exists!" }
  const UrlAndConfig: string := "url and config parameters cannot be used together"
  const NeitherUrlNorConfig: string := "Either url or config parameter must be specified"
  function ValidationFailed(run: Exec): string {
    "Lima config validation failed with status " + IntToS(run.exitstatus) + ": " + run.stderr
  }

  /** Ruby truthiness: everything but nil and false. */
  predicate Truthy(v: Value) {
    v != Atom(Nil) && v != Atom(Bool(false))
  }

  class CliHelper {
    const limactl: string
    const timeout: int
    /** `@lima_info`: the parsed `limactl info` output, nil until it is fetched. */
    var limaInfo: Value
    /** `@ssh_info`: the parsed `show-ssh` options of every VM asked about so far. */
    var sshInfo: map<string, SshOptions>

    constructor (options: HelperOptions)
      ensures limactl == (if options.limactlPath.Some? then options.limactlPath.value else DefaultLimactl)
      ensures timeout == (if options.timeout.Some? then options.timeout.value else DefaultTimeout)
      ensures limaInfo == Atom(Nil) && sshInfo == map[]
    {
      limactl := if options.limactlPath.Some? then options.limactlPath.value else DefaultLimactl;
      timeout := if options.timeout.Some? then options.timeout.value else DefaultTimeout;
      limaInfo := Atom(Nil);
      sshInfo := map[];
    }

    function InfoCommand(): seq<string> { [limactl, "info"] }

    /**
     * `info`: the memoised value when one is set; otherwise runs `limactl info` and
     * keeps `parsed` (its JSON output) on success, raising on failure.
     */
    method Info(run: Exec, parsed: Value) returns (r: Result<Value, string>, ran: bool)
      modifies this`limaInfo
      ensures ran == !Truthy(old(limaInfo))
      ensures !ran ==> r == Ok(old(limaInfo)) && limaInfo == old(limaInfo)
      ensures ran && !run.success ==> r == Err(FailureMessage(InfoCommand(), run.stderr, run.exitstatus))
                                      && limaInfo == old(limaInfo)
      ensures ran && run.success ==> r == Ok(parsed) && limaInfo == parsed
    {
      if Truthy(limaInfo) {
        return Ok(limaInfo), false;
      }
      ran := true;
      if !run.success {
        return Err(FailureMessage(InfoCommand(), run.stderr, run.exitstatus)), ran;
      }
      limaInfo := parsed;
      r := Ok(parsed);
    }

    /** `version`: `info['version']`, nil when the key is absent. */
    method Version(run: Exec, parsed: Value) returns (r: Result<Value, string>, ran: bool)
      modifies this`limaInfo
      ensures ran == !Truthy(old(limaInfo))
      ensures var info := if ran then parsed else old(limaInfo);
              (ran && !run.success ==> r == Err(FailureMessage(InfoCommand(), run.stderr, run.exitstatus))
                                       && limaInfo == old(limaInfo))
              && (!ran || run.success ==> r == Ok(VersionOf(info)) && limaInfo == info)
    {
      var info;
      info, ran := Info(run, parsed);
      if info.Err? {
        return Err(info.error), ran;
      }
      r := Ok(VersionOf(info.value));
    }

    function StatusCommand(name: string): seq<string> {
      [limactl, "list", "--format", "{{ .Status }}", name]
    }

    function StartCommand(name: string): seq<string> {
      [limactl, "start", "--timeout=" + IntToS(timeout) + "s", name]
    }

    function CreateCommand(name: string, source: string): seq<string> {
      [limactl, "create", "--name=" + name, source]
    }

    function ValidateCommand(path: string): seq<string> {
      [limactl, "validate", path]
    }

    /**
     * `start(name)`: asks for the status (`statusRun`), raises when the VM is
     * unknown, does nothing when it is running, and otherwise runs `limactl start`
     * (`startRun`), raising when that fails.
     */
    function Start(name: string, statusRun: Exec, startRun: Exec): (r: Run)
      ensures r.config == None && |r.commands| >= 1 && r.commands[0] == StatusCommand(name)
      ensures Chomp(statusRun.stdout) == "" ==>
                r.commands == [StatusCommand(name)] && r.result == Err(NotFound(name))
      ensures Chomp(statusRun.stdout) == "Running" ==>
                r.commands == [StatusCommand(name)] && r.result == Ok(true)
      ensures Chomp(statusRun.stdout) != "" && Chomp(statusRun.stdout) != "Running" ==>
                r.commands == [StatusCommand(name), StartCommand(name)]
                && r.result == (if startRun.success then Ok(true)
                                else Err(FailureMessage(StartCommand(name), startRun.stderr, startRun.exitstatus)))
    {
      var status := Chomp(statusRun.stdout);
      if status == "" then Run([StatusCommand(name)], None, Err(NotFound(name)))
      else if status == "Running" then Run([StatusCommand(name)], None, Ok(true))
      else
        var command := StartCommand(name);
        Run([StatusCommand(name), command], None,
            if startRun.success then Ok(true) else Err(FailureMessage(command, startRun.stderr, startRun.exitstatus)))
    }

    /** The final `limactl create` call of `create`, after the status and config were dealt with. */
    function CreateWith(name: string, issued: seq<seq<string>>, config: Option<seq<Entry>>, source: string, createRun: Exec): Run {
      var command := CreateCommand(name, source);
      Run(issued + [command], config,
          if createRun.success then Ok(true) else Err(FailureMessage(command, createRun.stderr, createRun.exitstatus)))
    }

    /**
     * `create(name, cfg)`: refuses an existing VM, then needs exactly one of `url`
     * and `config`. A config is stringified, written to the temporary file `tmpPath`
     * and validated (`validateRun`) first; the create call (`createRun`) gets the url
     * or that file.
     */
    function Create(name: string, cfg: CreateOptions, statusRun: Exec, tmpPath: string,
                    validateRun: Exec, createRun: Exec): (r: Run)
      ensures |r.commands| >= 1 && r.commands[0] == StatusCommand(name)
      ensures Chomp(statusRun.stdout) != "" ==>
                r == Run([StatusCommand(name)], None, Err(AlreadyExists(name)))
      ensures Chomp(statusRun.stdout) == "" && cfg.url.Some? && cfg.config.Some? ==>
                r == Run([StatusCommand(name)], None, Err(UrlAndConfig))
      ensures Chomp(statusRun.stdout) == "" && cfg.url.None? && cfg.config.None? ==>
                r == Run([StatusCommand(name)], None, Err(NeitherUrlNorConfig))
      ensures Chomp(statusRun.stdout) == "" && cfg.url.Some? && cfg.config.None? ==>
                r.config == None
                && r.commands == [StatusCommand(name), CreateCommand(name, cfg.url.value)]
                && r.result == (if createRun.success then Ok(true)
                                else Err(FailureMessage(CreateCommand(name, cfg.url.value), createRun.stderr,
                                                        createRun.exitstatus)))
      ensures Chomp(statusRun.stdout) == "" && cfg.url.None? && cfg.config.Some? ==>
                r.config == Some(StringifyKeys(cfg.config.value))
                && |r.commands| >= 2 && r.commands[1] == ValidateCommand(tmpPath)
                && (!validateRun.success ==> r.commands == [StatusCommand(name), ValidateCommand(tmpPath)]
                                             && r.result == Err(ValidationFailed(validateRun)))
                && (validateRun.success ==> r.commands == [StatusCommand(name), ValidateCommand(tmpPath),
                                                           CreateCommand(name, tmpPath)]
                                            && r.result == (if createRun.success then Ok(true)
                                                            else Err(FailureMessage(CreateCommand(name, tmpPath),
                                                                                    createRun.stderr,
                                                                                    createRun.exitstatus))))
    {
      var status := [StatusCommand(name)];
      if Chomp(statusRun.stdout) != "" then Run(status, None, Err(AlreadyExists(name)))
      else if cfg.url.Some? && cfg.config.Some? then Run(status, None, Err(UrlAndConfig))
      else if cfg.url.Some? then CreateWith(name, status, None, cfg.url.value, createRun)
      else if cfg.config.Some? then
        var written := Some(StringifyKeys(cfg.config.value));
        var issued := status + [ValidateCommand(tmpPath)];
        if !validateRun.success then Run(issued, written, Err(ValidationFailed(validateRun)))
        else CreateWith(name, issued, written, tmpPath, createRun)
      else Run(status, None, Err(NeitherUrlNorConfig))
    }

    /** `stop(name, force)`: a failure is logged and reported as false, never raised. */
    method Stop(name: string, force: bool, run: Exec) returns (command: seq<string>, ok: bool, warning: Option<string>)
      ensures command == [limactl, "stop"] + (if force then ["--force"] else []) + [name]
      ensures ok == run.success
      ensures warning == if ok then None else Some(FailureMessage(command, run.stderr, run.exitstatus))
    {
      command := [limactl, "stop"];
      if force {
        command := command + ["--force"];
      }
      command := command + [name];
      ok := run.success;
      warning := if ok then None else Some(FailureMessage(command, run.stderr, run.exitstatus));
    }

    /** `delete(names, force)`: one call for all names, in order; a failure is reported as false. */
    method Delete(names: seq<string>, force: bool, run: Exec) returns (command: seq<string>, ok: bool, warning: Option<string>)
      ensures var flags := if force then ["--force"] else [];
              |command| == 2 + |flags| + |names|
              && command[..2 + |flags|] == [limactl, "delete"] + flags
              && command[2 + |flags|..] == names
      ensures ok == run.success
      ensures warning == if ok then None else Some(FailureMessage(command, run.stderr, run.exitstatus))
    {
      command := [limactl, "delete"];
      if force {
        command := command + ["--force"];
      }
      command := command + names;
      ok := run.success;
      warning := if ok then None else Some(FailureMessage(command, run.stderr, run.exitstatus));
    }

    function ShowSshCommand(name: string): seq<string> {
      [limactl, "show-ssh", "--format", "options", name]
    }

    /**
     * `ssh_info(name)`: the memoised options when present; otherwise runs `show-ssh`
     * (`out`). Empty output gives an empty hash that is not memoised; other output
     * is parsed and memoised under `name`. Other names' entries stay as they were.
     */
    method SshInfo(name: string, out: ShowSsh) returns (r: SshOptions, ran: bool, warning: Option<string>)
      requires Parsable(out)
      modifies this`sshInfo
      ensures ran == (name !in old(sshInfo))
      ensures !ran ==> r == old(sshInfo)[name] && sshInfo == old(sshInfo) && warning == None
      ensures ran && out.stdout == "" ==>
                r == map[] && sshInfo == old(sshInfo)
                && warning == Some(FailureMessage(ShowSshCommand(name), out.stderr, out.exitstatus))
      ensures ran && out.stdout != "" ==>
                r == ParseSshOptions(out.tokens) && sshInfo == old(sshInfo)[name := r] && warning == None
    {
      if name in sshInfo {
        return sshInfo[name], false, None;
      }
      ran := true;
      if out.stdout == "" {
        return map[], ran, Some(FailureMessage(ShowSshCommand(name), out.stderr, out.exitstatus));
      }
      r := ParseSshOptions(out.tokens);
      sshInfo := sshInfo[name := r];
      warning := None;
    }
  }

  /** `info['version']` for a JSON object; nil when the key is absent. */
  function VersionOf(info: Value): (r: Value)
    ensures info.Hash? && Str("version") !in KeySet(info.entries) ==> r == Atom(Nil)
    ensures info.Hash? && Str("version") in KeySet(info.entries) ==> Entry(Str("version"), r) in info.entries
  {
    At(info, Str("version"))
  }
}
