/**
 * `ResolveReferenceTask`: the Bolt inventory plugin that turns the running Lima VMs
 * into SSH targets.
 *
 * The records of `limactl list --json` are given as `VmRecord`s, the compiled
 * `only_matching_names` / `except_matching_names` regular expressions as optional
 * name predicates, and every `show-ssh` call a VM name would cause as the function
 * `showSsh` of that name.
 */
module ResolveReference {
  import opened Wrappers
  import opened RubyValues
  import opened Lima

  /** One record of `limactl list --json`: its `name`, `status` and `IdentityFile` entries. */
  datatype VmRecord = VmRecord(name: string, status: Value, identityFile: Value)

  /** `regexp.match?(name)`. */
  type NameMatcher = string -> bool

  /**
   * The options hash of `task`: `:cli_helper`, `:limactl_path`, `:timeout` (read by
   * `CliHelper.new`), `:only_matching_names` and `:except_matching_names`; `None`
   * and `null` are nil.
   */
  datatype TaskOptions = TaskOptions(
    cliHelper: CliHelper?,
    limactlPath: Option<string>,
    timeout: Option<int>,
    onlyMatchingNames: Option<NameMatcher>,
    exceptMatchingNames: Option<NameMatcher>)

  /** The entry `{'name' => name, 'ssh_config' => options}` of `get_ssh_config`. */
  datatype SshEntry = SshEntry(name: string, sshConfig: SshOptions)

  const IdentityFile: string := "IdentityFile"

  // ===========================================================================
  // Filtering

  /** `vm_matching?`: running, accepted by the only-predicate, not rejected by the except-predicate. */
  predicate VmMatching(vm: VmRecord, only: Option<NameMatcher>, except: Option<NameMatcher>) {
    && vm.status == Atom(Str("Running"))
    && (only.None? || only.value(vm.name))
    && (except.None? || !except.value(vm.name))
  }

  /** `list.filter { |vm| vm_matching?(vm) }`. */
  function Matching(list: seq<VmRecord>, only: Option<NameMatcher>, except: Option<NameMatcher>): (r: seq<VmRecord>)
    ensures |r| <= |list|
  {
    if list == [] then []
    else (if VmMatching(list[0], only, except) then [list[0]] else []) + Matching(list[1..], only, except)
  }

  /** A record survives the filter exactly when it is in the list and matches. */
  lemma {:induction false} MatchingMembers(list: seq<VmRecord>, only: Option<NameMatcher>,
                                           except: Option<NameMatcher>, vm: VmRecord)
    ensures vm in Matching(list, only, except) <==> vm in list && VmMatching(vm, only, except)
  {
    if list != [] {
      MatchingMembers(list[1..], only, except, vm);
      assert list == [list[0]] + list[1..];
    }
  }

  /** Filtering a list that starts with `vm` keeps `vm` iff it matches, then filters the rest. */
  lemma MatchingCons(vm: VmRecord, rest: seq<VmRecord>, only: Option<NameMatcher>, except: Option<NameMatcher>)
    ensures Matching([vm] + rest, only, except)
         == (if VmMatching(vm, only, except) then [vm] else []) + Matching(rest, only, except)
  {
    var list := [vm] + rest;
    assert list[0] == vm && list[1..] == rest;
  }

  /** Filtering distributes over concatenation, so the list order is kept. */
  lemma {:induction false} MatchingAppend(a: seq<VmRecord>, b: seq<VmRecord>,
                                          only: Option<NameMatcher>, except: Option<NameMatcher>)
    ensures Matching(a + b, only, except) == Matching(a, only, except) + Matching(b, only, except)
  {
    if a == [] {
      assert a + b == b;
    } else {
      var x, rest := a[0], a[1..];
      var head := if VmMatching(x, only, except) then [x] else [];
      var ma, mb := Matching(rest, only, except), Matching(b, only, except);
      assert a == [x] + rest;
      calc {
        Matching(a + b, only, except);
        { assert a + b == [x] + (rest + b); }
        Matching([x] + (rest + b), only, except);
        { MatchingCons(x, rest + b, only, except); }
        head + Matching(rest + b, only, except);
        { MatchingAppend(rest, b, only, except); }
        head + (ma + mb);
        (head + ma) + mb;
        { MatchingCons(x, rest, only, except); }
        Matching(a, only, except) + mb;
      }
    }
  }

  /** Both predicates together filter as the only-filter followed by the except-filter. */
  lemma {:induction false} MatchingCompose(list: seq<VmRecord>, only: Option<NameMatcher>, except: Option<NameMatcher>)
    ensures Matching(list, only, except) == Matching(Matching(list, only, None), None, except)
  {
    if list != [] {
      MatchingCompose(list[1..], only, except);
      var head := if VmMatching(list[0], only, None) then [list[0]] else [];
      MatchingAppend(head, Matching(list[1..], only, None), None, except);
      if head != [] {
        assert head[1..] == [];
      }
    }
  }

  /** Without name options only the state counts: exactly the running records are kept. */
  lemma {:induction false} MatchingWithoutNames(list: seq<VmRecord>)
    ensures forall vm :: vm in Matching(list, None, None) <==> vm in list && vm.status == Atom(Str("Running"))
  {
    forall vm ensures vm in Matching(list, None, None) <==> vm in list && vm.status == Atom(Str("Running")) {
      MatchingMembers(list, None, None, vm);
    }
  }

  /**
   * The inventory test with both options, `^debian*` as the only-predicate and `_[12]$`
   * as the except-predicate (their answers for the four names are the requires): of
   * the four records only the running `debian_3` remains.
   */
  lemma MatchingExample(vms: seq<VmRecord>, only: NameMatcher, except: NameMatcher, key: Value)
    requires vms == [VmRecord("debian_1", Atom(Str("Running")), key), VmRecord("debian_2", Atom(Str("Stopped")), Atom(Nil)),
                     VmRecord("debian_3", Atom(Str("Running")), key), VmRecord("default", Atom(Str("Running")), key)]
    requires only("debian_1") && only("debian_2") && only("debian_3") && !only("default")
    requires except("debian_1") && except("debian_2") && !except("debian_3") && !except("default")
    ensures Matching(vms, Some(only), Some(except)) == [vms[2]]
  {
    var o, e := Some(only), Some(except);
    assert Matching(vms[3..], o, e) == [] by {
      assert vms[3..][1..] == [];
    }
    assert Matching(vms[2..], o, e) == [vms[2]] by {
      assert vms[2..][1..] == vms[3..];
    }
    assert Matching(vms[1..], o, e) == [vms[2]] by {
      assert vms[1..][1..] == vms[2..];
    }
  }

  function Names(vms: seq<VmRecord>): (r: seq<string>)
    ensures |r| == |vms| && forall i :: 0 <= i < |vms| ==> r[i] == vms[i].name
  {
    seq(|vms|, i requires 0 <= i < |vms| => vms[i].name)
  }

  // ===========================================================================
  // The `ssh_info` cache across `get_ssh_config`

  /** Every `show-ssh` output is one the parser accepts. */
  ghost predicate WellFormed(showSsh: string -> ShowSsh) {
    forall name :: Parsable(showSsh(name))
  }

  /** What `ssh_info(name)` returns on the cache `cache`. */
  function Fetched(cache: map<string, SshOptions>, name: string, showSsh: string -> ShowSsh): SshOptions
    requires Parsable(showSsh(name))
  {
    if name in cache then cache[name]
    else if showSsh(name).stdout == "" then map[]
    else ParseSshOptions(showSsh(name).tokens)
  }

  /**
   * The cache after `ssh_info(vm['name'])` and the `IdentityFile` assignment on the
   * hash it returned. That hash is the cached one whenever the name is cached
   * afterwards, so the assignment lands in the cache; the empty hash of a failed
   * call is a fresh one and leaves the cache alone.
   */
  function CacheStep(cache: map<string, SshOptions>, vm: VmRecord, showSsh: string -> ShowSsh): (r: map<string, SshOptions>)
    requires Parsable(showSsh(vm.name))
    ensures forall n :: n in r <==> n in cache || (n == vm.name && showSsh(n).stdout != "")
    ensures forall n :: n in cache && n != vm.name ==> r[n] == cache[n]
    ensures vm.name in r ==> r[vm.name] == Fetched(cache, vm.name, showSsh)[IdentityFile := vm.identityFile]
  {
    if vm.name in cache || showSsh(vm.name).stdout != "" then
      cache[vm.name := Fetched(cache, vm.name, showSsh)[IdentityFile := vm.identityFile]]
    else cache
  }

  /** The cache after `get_ssh_config` has handled the matched records `vms`, in order. */
  function CacheAfter(cache: map<string, SshOptions>, vms: seq<VmRecord>, showSsh: string -> ShowSsh): map<string, SshOptions>
    requires WellFormed(showSsh)
  {
    if vms == [] then cache
    else CacheStep(CacheAfter(cache, vms[..|vms| - 1], showSsh), vms[|vms| - 1], showSsh)
  }

  /**
   * The hash an entry of `get_ssh_config` holds once the loop is over: the cached
   * hash (with every later assignment to it) when the name is cached, otherwise
   * the fresh hash holding only the record's `IdentityFile`.
   */
  function SharedOptions(cache: map<string, SshOptions>, vm: VmRecord): SshOptions {
    if vm.name in cache then cache[vm.name] else map[IdentityFile := vm.identityFile]
  }

  /** The entries `get_ssh_config` returns for the records `vms` on the final cache `cache`. */
  function SshEntries(vms: seq<VmRecord>, cache: map<string, SshOptions>): (r: seq<SshEntry>)
    ensures |r| == |vms| && forall k :: 0 <= k < |vms| ==> r[k] == SshEntry(vms[k].name, SharedOptions(cache, vms[k]))
  {
    seq(|vms|, k requires 0 <= k < |vms| => SshEntry(vms[k].name, SharedOptions(cache, vms[k])))
  }

  /** A name is cached afterwards iff it was before, or it was looked up and `show-ssh` printed something. */
  lemma {:induction false} CacheAfterKeys(cache: map<string, SshOptions>, vms: seq<VmRecord>,
                                          showSsh: string -> ShowSsh, name: string)
    requires WellFormed(showSsh)
    ensures name in CacheAfter(cache, vms, showSsh)
            <==> name in cache || (name in Names(vms) && showSsh(name).stdout != "")
  {
    if vms != [] {
      var init := vms[..|vms| - 1];
      CacheAfterKeys(cache, init, showSsh, name);
      assert Names(vms) == Names(init) + [vms[|vms| - 1].name];
    }
  }

  /** Names that were not looked up keep their cache entry, or their absence. */
  lemma {:induction false} CacheAfterUntouched(cache: map<string, SshOptions>, vms: seq<VmRecord>,
                                               showSsh: string -> ShowSsh, name: string)
    requires WellFormed(showSsh)
    requires name !in Names(vms)
    ensures name in CacheAfter(cache, vms, showSsh) <==> name in cache
    ensures name in cache ==> CacheAfter(cache, vms, showSsh)[name] == cache[name]
  {
    if vms != [] {
      var init := vms[..|vms| - 1];
      assert Names(vms) == Names(init) + [vms[|vms| - 1].name];
      CacheAfterUntouched(cache, init, showSsh, name);
    }
  }

  /** Assigning one key makes two hashes equal that differed at most in that key. */
  lemma SameBut(m1: SshOptions, m2: SshOptions, k: string, v: Value)
    requires m1 - {k} == m2 - {k}
    ensures m1[k := v] == m2[k := v]
  {
    forall x | x != k
      ensures (x in m1 <==> x in m2) && (x in m1 ==> m1[x] == m2[x])
    {
      assert x in m1 <==> x in m1 - {k};
      assert x in m2 <==> x in m2 - {k};
      if x in m1 {
        assert (m1 - {k})[x] == m1[x];
        assert (m2 - {k})[x] == m2[x];
      }
    }
  }

  /** Apart from `IdentityFile`, a cached hash is what the first `ssh_info` call returned. */
  lemma {:induction false} CacheAfterStable(cache: map<string, SshOptions>, vms: seq<VmRecord>,
                                            showSsh: string -> ShowSsh, name: string)
    requires WellFormed(showSsh)
    requires name in CacheAfter(cache, vms, showSsh)
    ensures CacheAfter(cache, vms, showSsh)[name] - {IdentityFile} == Fetched(cache, name, showSsh) - {IdentityFile}
  {
    if vms == [] {
    } else {
      var init, vm := vms[..|vms| - 1], vms[|vms| - 1];
      var prev := CacheAfter(cache, init, showSsh);
      if vm.name != name {
        CacheAfterStable(cache, init, showSsh, name);
      } else {
        var fetched := Fetched(prev, name, showSsh);
        assert fetched[IdentityFile := vm.identityFile] - {IdentityFile} == fetched - {IdentityFile};
        if name in prev {
          CacheAfterStable(cache, init, showSsh, name);
        } else {
          CacheAfterKeys(cache, init, showSsh, name);
        }
      }
    }
  }

  /**
   * The hash cached for a looked-up name is the first lookup's result with the
   * `IdentityFile` of the LAST record of that name.
   */
  lemma {:induction false} CacheAfterEntry(cache: map<string, SshOptions>, vms: seq<VmRecord>,
                                           showSsh: string -> ShowSsh, i: nat)
    requires WellFormed(showSsh)
    requires i < |vms|
    requires forall j :: i < j < |vms| ==> vms[j].name != vms[i].name
    requires vms[i].name in cache || showSsh(vms[i].name).stdout != ""
    ensures vms[i].name in CacheAfter(cache, vms, showSsh)
    ensures CacheAfter(cache, vms, showSsh)[vms[i].name]
         == Fetched(cache, vms[i].name, showSsh)[IdentityFile := vms[i].identityFile]
  {
    var name := vms[i].name;
    var init := vms[..|vms| - 1];
    var prev := CacheAfter(cache, init, showSsh);
    CacheAfterKeys(cache, init, showSsh, name);
    if i == |vms| - 1 {
      if name in prev {
        CacheAfterStable(cache, init, showSsh, name);
      }
      SameBut(Fetched(prev, name, showSsh), Fetched(cache, name, showSsh), IdentityFile, vms[i].identityFile);
    } else {
      assert init[i] == vms[i];
      assert forall j :: i < j < |init| ==> init[j] == vms[j];
      CacheAfterEntry(cache, init, showSsh, i);
    }
  }

  /**
   * What an entry of `get_ssh_config` holds at the end. A name `ssh_info` caches is
   * one hash shared by all its entries and the cache, with the `IdentityFile` of the
   * last record of that name (record `i`); otherwise each entry has its own hash
   * holding only its record's `IdentityFile`.
   */
  lemma EntryOptions(cache: map<string, SshOptions>, vms: seq<VmRecord>, showSsh: string -> ShowSsh, k: nat, i: nat)
    requires WellFormed(showSsh)
    requires k <= i < |vms| && vms[k].name == vms[i].name
    requires forall j :: i < j < |vms| ==> vms[j].name != vms[i].name
    ensures SharedOptions(CacheAfter(cache, vms, showSsh), vms[k])
         == if vms[k].name in cache || showSsh(vms[k].name).stdout != ""
            then Fetched(cache, vms[k].name, showSsh)[IdentityFile := vms[i].identityFile]
            else map[IdentityFile := vms[k].identityFile]
  {
    CacheAfterKeys(cache, vms, showSsh, vms[k].name);
    assert Names(vms)[k] == vms[k].name;
    if vms[k].name in cache || showSsh(vms[k].name).stdout != "" {
      CacheAfterEntry(cache, vms, showSsh, i);
    }
  }

  /** With distinct VM names, every entry's `IdentityFile` is exactly its own record's. */
  lemma OwnIdentityFile(cache: map<string, SshOptions>, vms: seq<VmRecord>, showSsh: string -> ShowSsh, k: nat)
    requires WellFormed(showSsh)
    requires k < |vms|
    requires forall a, b :: 0 <= a < b < |vms| ==> vms[a].name != vms[b].name
    ensures IdentityFile in SharedOptions(CacheAfter(cache, vms, showSsh), vms[k])
    ensures SharedOptions(CacheAfter(cache, vms, showSsh), vms[k])[IdentityFile] == vms[k].identityFile
  {
    EntryOptions(cache, vms, showSsh, k, k);
  }

  // ===========================================================================
  // Targets

  /** `cfg[key]`: nil for a missing option. */
  function OptionAt(cfg: SshOptions, key: string): Value {
    if key in cfg then cfg[key] else Atom(Nil)
  }

  /** The text of `"ssh://#{cfg['Hostname']}:#{cfg['Port']}"`. */
  function Uri(cfg: SshOptions): string {
    "ssh://" + Interpolate(OptionAt(cfg, "Hostname")) + ":" + Interpolate(OptionAt(cfg, "Port"))
  }

  /** The target hash `resolve_reference` builds for one entry of `get_ssh_config`. */
  function ToTarget(entry: SshEntry): (t: Value)
    ensures t.Hash? && DistinctKeys(t.entries) && KeySet(t.entries) == {Str("uri"), Str("name"), Str("config")}
    ensures At(t, Str("name")) == Atom(Str(entry.name))
    ensures At(t, Str("uri")) == Atom(Str(Uri(entry.sshConfig)))
    ensures At(t, Str("config")).Hash? && DistinctKeys(At(t, Str("config")).entries)
    ensures KeySet(At(t, Str("config")).entries) == {Str("ssh")}
    ensures At(At(t, Str("config")), Str("ssh")).Hash?
    ensures DistinctKeys(At(At(t, Str("config")), Str("ssh")).entries)
    ensures KeySet(At(At(t, Str("config")), Str("ssh")).entries) == {Str("user"), Str("private-key"), Str("host-key-check")}
    ensures At(At(At(t, Str("config")), Str("ssh")), Str("user")) == OptionAt(entry.sshConfig, "User")
    ensures At(At(At(t, Str("config")), Str("ssh")), Str("private-key")) == OptionAt(entry.sshConfig, IdentityFile)
    ensures At(At(At(t, Str("config")), Str("ssh")), Str("host-key-check")) == Atom(Bool(false))
  {
    var cfg := entry.sshConfig;
    var ssh := [Entry(Str("user"), OptionAt(cfg, "User")),
                Entry(Str("private-key"), OptionAt(cfg, IdentityFile)),
                Entry(Str("host-key-check"), Atom(Bool(false)))];
    var top := [Entry(Str("uri"), Atom(Str(Uri(cfg)))),
                Entry(Str("name"), Atom(Str(entry.name))),
                Entry(Str("config"), Hash([Entry(Str("ssh"), Hash(ssh))]))];
    assert |"uri"| == 3 && |"name"| == 4 && |"config"| == 6;
    assert |"user"| == 4 && |"private-key"| == 11 && |"host-key-check"| == 14;
    HashOfOne(Entry(Str("ssh"), Hash(ssh)));
    HashOfThree(ssh[0], ssh[1], ssh[2]);
    HashOfThree(top[0], top[1], top[2]);
    Hash(top)
  }

  /** `get_ssh_config.map { … }`: one target per entry, in order. */
  function Targets(entries: seq<SshEntry>): (ts: seq<Value>)
    ensures |ts| == |entries| && forall k :: 0 <= k < |entries| ==> ts[k] == ToTarget(entries[k])
  {
    seq(|entries|, k requires 0 <= k < |entries| => ToTarget(entries[k]))
  }

  /**
   * For a VM whose options were parsed from `show-ssh` words, the uri joins the last
   * `Hostname` word's value and the integer value of the last `Port` word.
   */
  lemma TargetUriOfParsed(tokens: seq<string>, h: nat, p: nat, identityFile: Value)
    requires Assignments(tokens)
    requires h < |tokens| && KeyOf(tokens[h]) == "Hostname"
    requires forall j :: h < j < |tokens| ==> KeyOf(tokens[j]) != "Hostname"
    requires p < |tokens| && KeyOf(tokens[p]) == "Port"
    requires forall j :: p < j < |tokens| ==> KeyOf(tokens[j]) != "Port"
    ensures Uri(ParseSshOptions(tokens)[IdentityFile := identityFile])
         == "ssh://" + ValueOf(tokens[h]) + ":" + IntToS(ToI(ValueOf(tokens[p])))
  {
    SshOptionsLastWins(tokens, h);
    SshOptionsPort(tokens, p);
  }

  lemma KeysWithoutEquals()
    ensures '=' !in "Hostname" && '=' !in "Port"
  {
    forall i | 0 <= i < |"Hostname"| ensures "Hostname"[i] != '=' { }
    forall i | 0 <= i < |"Port"| ensures "Port"[i] != '=' { }
  }

  /** A port written in canonical decimal appears in the uri as written. */
  lemma TargetUriCanonicalPort(host: string, port: int, tokens: seq<string>, identityFile: Value)
    requires tokens == ["Hostname=" + host, "Port=" + IntToS(port)]
    ensures Assignments(tokens)
    ensures Uri(ParseSshOptions(tokens)[IdentityFile := identityFile]) == "ssh://" + host + ":" + IntToS(port)
  {
    KeysWithoutEquals();
    SplitAtFirstOfJoin("Hostname", host);
    SplitAtFirstOfJoin("Port", IntToS(port));
    assert tokens[0] == "Hostname" + "=" + host;
    assert tokens[1] == "Port" + "=" + IntToS(port);
    assert Assignments(tokens) by {
      assert tokens[0][8] == '=';
      assert tokens[1][4] == '=';
    }
    TargetUriOfParsed(tokens, 0, 1, identityFile);
    ToIOfIntToS(port);
  }

  /** With distinct VM names, each target's private key is its own list record's `IdentityFile`. */
  lemma TargetPrivateKey(cache: map<string, SshOptions>, vms: seq<VmRecord>, showSsh: string -> ShowSsh, k: nat)
    requires WellFormed(showSsh)
    requires k < |vms|
    requires forall a, b :: 0 <= a < b < |vms| ==> vms[a].name != vms[b].name
    ensures var t := ToTarget(SshEntry(vms[k].name, SharedOptions(CacheAfter(cache, vms, showSsh), vms[k])));
            At(At(At(t, Str("config")), Str("ssh")), Str("private-key")) == vms[k].identityFile
            && At(t, Str("name")) == Atom(Str(vms[k].name))
  {
    OwnIdentityFile(cache, vms, showSsh, k);
  }

  /** A reference to the hash an `ssh_info` call returned: the cached one, or a fresh one. */
  datatype OptionsRef = Cached(name: string) | Fresh(options: SshOptions)

  function Deref(r: OptionsRef, cache: map<string, SshOptions>): SshOptions {
    match r
    case Cached(name) => if name in cache then cache[name] else map[]
    case Fresh(options) => options
  }

  /** The hash that the `get_ssh_config` entry of `vm` refers to. */
  function RefFor(cache: map<string, SshOptions>, vm: VmRecord, showSsh: string -> ShowSsh): OptionsRef {
    if vm.name in cache || showSsh(vm.name).stdout != "" then Cached(vm.name)
    else Fresh(map[IdentityFile := vm.identityFile])
  }

  function Refs(cache: map<string, SshOptions>, vms: seq<VmRecord>, showSsh: string -> ShowSsh): (r: seq<OptionsRef>)
    ensures |r| == |vms| && forall k :: 0 <= k < |vms| ==> r[k] == RefFor(cache, vms[k], showSsh)
  {
    seq(|vms|, k requires 0 <= k < |vms| => RefFor(cache, vms[k], showSsh))
  }

  /** Once the loop is over, every reference reads the hash `SharedOptions` describes. */
  lemma DerefRefs(cache: map<string, SshOptions>, vms: seq<VmRecord>, showSsh: string -> ShowSsh, refs: seq<OptionsRef>)
    requires WellFormed(showSsh)
    requires refs == Refs(cache, vms, showSsh)
    ensures |refs| == |vms|
    ensures forall k :: 0 <= k < |vms| ==>
              Deref(refs[k], CacheAfter(cache, vms, showSsh)) == SharedOptions(CacheAfter(cache, vms, showSsh), vms[k])
  {
    forall k | 0 <= k < |vms|
      ensures Deref(refs[k], CacheAfter(cache, vms, showSsh)) == SharedOptions(CacheAfter(cache, vms, showSsh), vms[k])
    {
      CacheAfterKeys(cache, vms, showSsh, vms[k].name);
      assert Names(vms)[k] == vms[k].name;
    }
  }

  /**
   * One step of the `map` in `get_ssh_config`: `ssh_info(vm['name'])`, then
   * `IdentityFile` set to the record's on the hash it returned. Returns a reference
   * to that hash and whether `show-ssh` ran.
   */
  method LookUp(helper: CliHelper, vm: VmRecord, showSsh: string -> ShowSsh) returns (ref: OptionsRef, ran: bool)
    requires WellFormed(showSsh)
    modifies helper`sshInfo
    ensures helper.sshInfo == CacheStep(old(helper.sshInfo), vm, showSsh)
    ensures ran == (vm.name !in old(helper.sshInfo))
    ensures ref == if vm.name in old(helper.sshInfo) || showSsh(vm.name).stdout != "" then Cached(vm.name)
                   else Fresh(map[IdentityFile := vm.identityFile])
  {
    var options, warning;
    options, ran, warning := helper.SshInfo(vm.name, showSsh(vm.name));
    if vm.name in helper.sshInfo {
      // `options` is the cached hash itself: the assignment updates the cache.
      helper.sshInfo := helper.sshInfo[vm.name := options[IdentityFile := vm.identityFile]];
      ref := Cached(vm.name);
    } else {
      assert options[IdentityFile := vm.identityFile] == map[IdentityFile := vm.identityFile];
      ref := Fresh(options[IdentityFile := vm.identityFile]);
    }
  }

  /** How the state after `j + 1` records follows from the state after `j`. */
  lemma PrefixStep(cache: map<string, SshOptions>, vms: seq<VmRecord>, j: nat, showSsh: string -> ShowSsh)
    requires WellFormed(showSsh)
    requires j < |vms|
    ensures CacheAfter(cache, vms[..j + 1], showSsh) == CacheStep(CacheAfter(cache, vms[..j], showSsh), vms[j], showSsh)
    ensures Names(vms[..j + 1]) == Names(vms[..j]) + [vms[j].name]
    ensures Refs(cache, vms[..j + 1], showSsh) == Refs(cache, vms[..j], showSsh) + [RefFor(cache, vms[j], showSsh)]
    ensures vms[j].name in CacheAfter(cache, vms[..j], showSsh) || showSsh(vms[j].name).stdout != ""
        <==> vms[j].name in cache || showSsh(vms[j].name).stdout != ""
    ensures vms[j].name in CacheAfter(cache, vms[..j], showSsh) && vms[j].name !in cache ==> vms[j].name in Names(vms[..j])
    ensures vms[j].name !in CacheAfter(cache, vms[..j], showSsh) ==> vms[j].name !in cache
  {
    assert vms[..j + 1][..j] == vms[..j];
    CacheAfterKeys(cache, vms[..j], showSsh, vms[j].name);
  }

  /** The `map` of `get_ssh_config` over the matched records `vms`. */
  method LookUpAll(helper: CliHelper, vms: seq<VmRecord>, showSsh: string -> ShowSsh)
    returns (entries: seq<SshEntry>, requested: seq<string>, shown: seq<string>)
    requires WellFormed(showSsh)
    modifies helper`sshInfo
    ensures helper.sshInfo == CacheAfter(old(helper.sshInfo), vms, showSsh)
    ensures |entries| == |vms|
    ensures forall k :: 0 <= k < |vms| ==> entries[k] == SshEntry(vms[k].name, SharedOptions(helper.sshInfo, vms[k]))
    ensures requested == Names(vms)
    ensures forall n :: n in shown <==> n in requested && n !in old(helper.sshInfo)
  {
    ghost var cache0 := helper.sshInfo;
    var refs: seq<OptionsRef> := [];
    requested, shown := [], [];
    var j := 0;
    while j < |vms|
      invariant 0 <= j <= |vms|
      invariant helper.sshInfo == CacheAfter(cache0, vms[..j], showSsh)
      invariant refs == Refs(cache0, vms[..j], showSsh)
      invariant requested == Names(vms[..j])
      invariant forall n :: n in shown <==> n in requested && n !in cache0
    {
      var vm := vms[j];
      PrefixStep(cache0, vms, j, showSsh);
      var ref, ran := LookUp(helper, vm, showSsh);
      if ran {
        shown := shown + [vm.name];
      }
      requested := requested + [vm.name];
      refs := refs + [ref];
      j := j + 1;
    }
    assert vms[..j] == vms;
    var cache := helper.sshInfo;
    DerefRefs(cache0, vms, showSsh, refs);
    entries := seq(|vms|, k requires 0 <= k < |vms| => SshEntry(vms[k].name, Deref(refs[k], cache)));
  }

  // ===========================================================================
  // `ResolveReferenceTask`

  class ResolveReferenceTask {
    /** `@cli_helper`, nil until the first `set_opts`. */
    var cliHelper: CliHelper?
    /** `@limactl`, nil until the first `set_opts`. */
    var limactl: Option<string>
    var onlyNames: Option<NameMatcher>
    var exceptNames: Option<NameMatcher>

    constructor ()
      ensures cliHelper == null && limactl == None && onlyNames == None && exceptNames == None
    {
      cliHelper := null;
      limactl := None;
      onlyNames := None;
      exceptNames := None;
    }

    /** The memo of the helper `set_opts(opts)` keeps or takes; a new helper starts empty. */
    ghost function CacheBefore(opts: TaskOptions): map<string, SshOptions>
      reads this, cliHelper, opts.cliHelper
    {
      if cliHelper != null then cliHelper.sshInfo
      else if opts.cliHelper != null then opts.cliHelper.sshInfo
      else map[]
    }

    /** The `@lima_info` of the helper `set_opts(opts)` keeps or takes; a new helper has nil. */
    ghost function InfoBefore(opts: TaskOptions): Value
      reads this, cliHelper, opts.cliHelper
    {
      if cliHelper != null then cliHelper.limaInfo
      else if opts.cliHelper != null then opts.cliHelper.limaInfo
      else Atom(Nil)
    }

    /**
     * `set_opts(opts)`: the helper is set once (`||=`): a given `:cli_helper`, or a
     * new one built from the options. The name filters are replaced on every call.
     */
    method SetOpts(opts: TaskOptions)
      modifies this
      ensures cliHelper != null
      ensures old(cliHelper) != null ==> cliHelper == old(cliHelper)
      ensures old(cliHelper) == null && opts.cliHelper != null ==> cliHelper == opts.cliHelper
      ensures old(cliHelper) == null && opts.cliHelper == null ==>
                fresh(cliHelper)
                && cliHelper.limactl == (if opts.limactlPath.Some? then opts.limactlPath.value else DefaultLimactl)
                && cliHelper.timeout == (if opts.timeout.Some? then opts.timeout.value else DefaultTimeout)
                && cliHelper.limaInfo == Atom(Nil) && cliHelper.sshInfo == map[]
      ensures limactl == Some(if opts.limactlPath.Some? then opts.limactlPath.value else DefaultLimactl)
      ensures onlyNames == opts.onlyMatchingNames && exceptNames == opts.exceptMatchingNames
      ensures cliHelper.sshInfo == old(CacheBefore(opts)) && cliHelper.limaInfo == old(InfoBefore(opts))
    {
      if cliHelper == null {
        if opts.cliHelper != null {
          cliHelper := opts.cliHelper;
        } else {
          cliHelper := new CliHelper(HelperOptions(opts.limactlPath, opts.timeout));
        }
      }
      limactl := Some(if opts.limactlPath.Some? then opts.limactlPath.value else DefaultLimactl);
      onlyNames := opts.onlyMatchingNames;
      exceptNames := opts.exceptMatchingNames;
    }

    /**
     * `get_ssh_config`: for every matching record, in list order, `ssh_info` of its
     * name with `IdentityFile` replaced by the record's. Returns the entries, the
     * names `ssh_info` was asked for, and the names `show-ssh` was run for.
     */
    method GetSshConfig(list: seq<VmRecord>, showSsh: string -> ShowSsh)
      returns (entries: seq<SshEntry>, requested: seq<string>, shown: seq<string>)
      requires cliHelper != null
      requires WellFormed(showSsh)
      modifies cliHelper`sshInfo
      ensures var matched := Matching(list, onlyNames, exceptNames);
              && cliHelper.sshInfo == CacheAfter(old(cliHelper.sshInfo), matched, showSsh)
              && |entries| == |matched|
              && (forall k :: 0 <= k < |matched| ==>
                    entries[k] == SshEntry(matched[k].name, SharedOptions(cliHelper.sshInfo, matched[k])))
              && entries == SshEntries(matched, cliHelper.sshInfo)
              && requested == Names(matched)
              && (forall n :: n in shown <==> n in requested && n !in old(cliHelper.sshInfo))
    {
      var matched := Matching(list, onlyNames, exceptNames);
      entries, requested, shown := LookUpAll(cliHelper, matched, showSsh);
      assert entries == SshEntries(matched, cliHelper.sshInfo);
    }

    /**
     * `resolve_reference(opts)`: `set_opts`, then one target per entry of
     * `get_ssh_config`, in order.
     */
    method ResolveReference(opts: TaskOptions, list: seq<VmRecord>, showSsh: string -> ShowSsh)
      returns (targets: seq<Value>)
      requires WellFormed(showSsh)
      modifies this, cliHelper, opts.cliHelper
      ensures cliHelper != null
      ensures old(cliHelper) != null ==> cliHelper == old(cliHelper)
      ensures old(cliHelper) == null && opts.cliHelper != null ==> cliHelper == opts.cliHelper
      ensures old(cliHelper) == null && opts.cliHelper == null ==>
                fresh(cliHelper)
                && cliHelper.limactl == (if opts.limactlPath.Some? then opts.limactlPath.value else DefaultLimactl)
                && cliHelper.timeout == (if opts.timeout.Some? then opts.timeout.value else DefaultTimeout)
      ensures limactl == Some(if opts.limactlPath.Some? then opts.limactlPath.value else DefaultLimactl)
      ensures onlyNames == opts.onlyMatchingNames && exceptNames == opts.exceptMatchingNames
      ensures cliHelper.limaInfo == old(InfoBefore(opts))
      ensures opts.cliHelper != null && opts.cliHelper != cliHelper ==>
                opts.cliHelper.sshInfo == old(opts.cliHelper.sshInfo)
                && opts.cliHelper.limaInfo == old(opts.cliHelper.limaInfo)
      ensures var matched := Matching(list, opts.onlyMatchingNames, opts.exceptMatchingNames);
              && cliHelper.sshInfo == CacheAfter(old(CacheBefore(opts)), matched, showSsh)
              && targets == Targets(SshEntries(matched, cliHelper.sshInfo))
    {
      SetOpts(opts);
      label configured:
      var entries, requested, shown := GetSshConfig(list, showSsh);
      if opts.cliHelper != null && opts.cliHelper != cliHelper {
        assert opts.cliHelper.sshInfo == old@configured(opts.cliHelper.sshInfo);
      }
      targets := Targets(entries);
    }

    /** `task(opts)`: `{value: targets}`. */
    method Task(opts: TaskOptions, list: seq<VmRecord>, showSsh: string -> ShowSsh) returns (result: Value)
      requires WellFormed(showSsh)
      modifies this, cliHelper, opts.cliHelper
      ensures cliHelper != null
      ensures old(cliHelper) != null ==> cliHelper == old(cliHelper)
      ensures old(cliHelper) == null && opts.cliHelper != null ==> cliHelper == opts.cliHelper
      ensures old(cliHelper) == null && opts.cliHelper == null ==>
                fresh(cliHelper)
                && cliHelper.limactl == (if opts.limactlPath.Some? then opts.limactlPath.value else DefaultLimactl)
                && cliHelper.timeout == (if opts.timeout.Some? then opts.timeout.value else DefaultTimeout)
      ensures limactl == Some(if opts.limactlPath.Some? then opts.limactlPath.value else DefaultLimactl)
      ensures onlyNames == opts.onlyMatchingNames && exceptNames == opts.exceptMatchingNames
      ensures cliHelper.limaInfo == old(InfoBefore(opts))
      ensures opts.cliHelper != null && opts.cliHelper != cliHelper ==>
                opts.cliHelper.sshInfo == old(opts.cliHelper.sshInfo)
                && opts.cliHelper.limaInfo == old(opts.cliHelper.limaInfo)
      ensures var matched := Matching(list, opts.onlyMatchingNames, opts.exceptMatchingNames);
              && cliHelper.sshInfo == CacheAfter(old(CacheBefore(opts)), matched, showSsh)
              && result == Hash([Entry(Sym("value"), List(Targets(SshEntries(matched, cliHelper.sshInfo))))])
    {
      var targets := ResolveReference(opts, list, showSsh);
      result := Hash([Entry(Sym("value"), List(targets))]);
    }
  }
}
