# Lima inventory and CLI helper, modelled in Dafny

This project models the deterministic core of a Bolt module that drives Lima
virtual machines through the `limactl` command line:

- `Lima::CliHelper` (lib/cli_helper.rb) does several things:
  - It builds the `limactl` argument vectors for `start`, `create`, `stop` and `delete`.
  - It decides from a VM's status which of them may run.
  - It turns `limactl show-ssh --format options` output into an SSH options hash.
  - It converts hash keys to strings before the YAML config is written.
  - It memoises `limactl info` and the SSH options of each VM.
- `ResolveReferenceTask` (tasks/resolve_reference.rb) is the inventory plugin. It does three things:
  - It keeps the running VMs that pass the optional name filters.
  - It looks up their SSH options, overriding `IdentityFile` with the list record's.
  - It shapes each VM into a `{uri, name, config.ssh}` target, in list order.

The project has four files:

- `wrappers.dfy` has `Option` and `Result`. An `Err` is a raised `LimaError` with its message.
- `ruby_values.dfy` has the Ruby values the code exchanges.
  - A hash is an ordered list of entries with distinct keys, updated as `Hash#[]=` does.
  - The SSH options hash of one VM is the exception: it is a `map` from option name to value, so it has no order. Nothing that reads it depends on the order of its keys: `resolve_reference` only looks up `Hostname`, `Port`, `User` and `IdentityFile`.
  - It also has the core-library operations the code relies on: `to_s`, `String#to_i`, `String#chomp` and `Array#join`.
- `cli_helper.dfy` (module `Lima`) is `CliHelper`.
  - It is a class with the memo fields `limaInfo` and `sshInfo`.
  - The pure parts are functions: the `ssh_info` parser, the `start`/`create` decisions and the key conversion's specification.
  - The parts that update the memo fields are methods: `info`, `version` and `ssh_info`.
  - `stop` and `delete` are methods as well, but they change no state: each builds its argument vector and reports the result of the call.
  - `stringify_keys_recursively` is a method with its loop, proved against the specification function.
- `resolve_reference.dfy` (module `ResolveReference`) is `ResolveReferenceTask`.
  - It is a class with the fields `set_opts` assigns.
  - `get_ssh_config` is a loop that updates the helper's cache through the hash `ssh_info` returns.

Every process call is replaced by what it returned, given as a parameter:

- `Exec` stands for the stdout, stderr and exit status of one call.
- `ShowSsh` stands for a `show-ssh` result, with the shell words of its output already split.
- The value `JSON.parse` produced is passed in directly.

The code and its RSpec tests disagree in one place. Both `create` tests expect `--timeout` in the `create` command: the url test at spec/lima/limactl_helper_spec.rb:145 and :150, and the config test at :173 and :179. lib/cli_helper.rb:103 does not pass it. The model follows the code.

## Model

| member | source | states |
|---|---|---|
| `RubyValues.Chomp` | lib/cli_helper.rb:53 | `status` output loses at most one trailing `\n`, `\r` or `\r\n`, and text without a line ending is kept |
| `RubyValues.ChompLineEnding` | lib/cli_helper.rb:53 | chomping a line plus any one of the three line endings gives back the line |
| `RubyValues.ToI` | lib/cli_helper.rb:162 | base-10 `String#to_i`: leading white space and one sign are skipped, then an optional `0d`/`0D` prefix; digits with single underscores between them are read; text not starting with a number gives 0. Characterised by `ToIOfIntToS` and `DecimalPrefix` |
| `RubyValues.DecimalPrefix` | lib/cli_helper.rb:162 | `0d` or `0D` in front of a decimal number does not change its `to_i` value |
| `RubyValues.ToIOfIntToS` | lib/cli_helper.rb:162 | `to_i` reads back every integer `to_s` writes |
| `RubyValues.Store` | lib/cli_helper.rb:171 | `h[k] = v` adds `k` to the keys, makes `h[k]` return `v`, leaves other keys alone, and appends a new key at the end |
| `RubyValues.StoreKeepsDistinct` | lib/cli_helper.rb:171 | assigning a key keeps a hash free of duplicate keys |
| `RubyValues.StoreInPlace` | lib/cli_helper.rb:171 | assigning a present key keeps every key at its position |
| `RubyValues.At` | lib/cli_helper.rb:38 | `h[k]` is the value stored under `k`, or nil when `k` is absent or `h` is not a hash |
| `Lima.SplitAtFirst` | lib/cli_helper.rb:154 | `split('=', 2)` gives a key without `=` and the rest, which rejoin to the token |
| `Lima.SplitAtFirstOfJoin` | lib/cli_helper.rb:154 | splitting `key=value` gives back the key and the whole value, even when the value contains `=` |
| `Lima.IdentityFilesAppend` | lib/cli_helper.rb:157 | collecting the `IdentityFile` values keeps input order across concatenation |
| `Lima.LastValuesKeys` | lib/cli_helper.rb:160 | `Hash[*pairs.flatten]` has exactly the token keys |
| `Lima.LastValueWins` | lib/cli_helper.rb:160 | for a repeated key, `Hash[*pairs.flatten]` keeps the last token's value |
| `Lima.ParseSshOptions` | lib/cli_helper.rb:154-162 | the options hash built from the `show-ssh` words: pairs split at the first `=`, last value per key, `IdentityFile` replaced by the list of all identity files and `Port` by its integer. Characterised by the `SshOptions*` lemmas below |
| `Lima.SshOptionsKeys` | lib/cli_helper.rb:154-162 | the options hash has exactly the token keys plus `IdentityFile` and `Port` |
| `Lima.SshOptionsLastWins` | lib/cli_helper.rb:160 | any other key maps to the string value of its last token |
| `Lima.SshOptionsPort` | lib/cli_helper.rb:162 | `Port` is `to_i` of the last `Port` value |
| `Lima.SshOptionsNoPort` | lib/cli_helper.rb:162 | without a `Port` token, `Port` is 0 |
| `Lima.SshOptionsIdentityFiles` | lib/cli_helper.rb:157-161 | the `IdentityFile` list of concatenated words is the concatenation of their lists, so input order is kept; it is empty for no words |
| `Lima.IdentityFilesMembers` | lib/cli_helper.rb:157 | a value is collected iff some word with the key `IdentityFile` carries it |
| `Lima.SshOptionsIdentityFileValues` | lib/cli_helper.rb:157-161 | the `IdentityFile` entry is a list holding exactly the values of the `IdentityFile` words, and it is empty when no word has that key |
| `Lima.SshOptionsOneIdentityFile` | lib/cli_helper.rb:157-161 | one word gives the list holding its value when its key is `IdentityFile`, and the empty list otherwise |
| `Lima.StringifyValue` | lib/cli_helper.rb:171-177 | scalars are kept; a value is a hash after the conversion iff it was one before; arrays keep their length and every element that is not a hash |
| `Lima.StringifyValueNested` | lib/cli_helper.rb:171-174 | a hash value becomes the converted hash of its entries, and each hash element of an array becomes its own conversion |
| `Lima.StringifyKeys` | lib/cli_helper.rb:168-180 | the specification of `stringify_keys_recursively` on one hash: the entries are stored one after another under the `to_s` of their keys, each value converted by `StringifyValue`. Characterised by `StringifyKeysKeys`, `StringifyLastWins`, `StringifyWithoutCollisions`, `StringifyIsNormal` and `StringifyIdempotent` |
| `Lima.StringifyKeysKeys` | lib/cli_helper.rb:169-171 | the keys of the new hash are the `to_s` of the old keys, and none of them repeats |
| `Lima.StringifyLastWins` | lib/cli_helper.rb:170-171 | of several keys with the same `to_s`, the converted value of the last one is stored |
| `Lima.StringifyWithoutCollisions` | lib/cli_helper.rb:168-180 | when no two keys share a `to_s`, entry `i` becomes `(k.to_s, converted v)`, in order, and the size is kept |
| `Lima.StringifyIsNormal` | lib/cli_helper.rb:168-180 | the conversion yields well-formed hashes with string keys at every level it visits |
| `Lima.NormalIsFixed` | lib/cli_helper.rb:168-180 | a value already in that form is left unchanged |
| `Lima.StringifyIdempotent` | lib/cli_helper.rb:168-180 | converting twice gives the same as converting once |
| `Lima.StringifyKeysRecursively` | lib/cli_helper.rb:168-180 | the looping method computes exactly the converted hash |
| `Lima.StringifyEntryValue` | lib/cli_helper.rb:171-177 | the value stored for one entry is exactly its conversion: a hash recurses, an array maps, anything else is kept |
| `Lima.StringifyItems` | lib/cli_helper.rb:174 | the inner `map` loop gives exactly the converted elements of the array |
| `Lima.VersionOf` | lib/cli_helper.rb:38 | `info['version']` is the stored version entry, or nil when it is absent |
| `Lima.CliHelper.constructor` | lib/cli_helper.rb:10-23 | `limactl` defaults to `"limactl"`, the timeout to 600; both memo fields start empty |
| `Lima.CliHelper.Info` | lib/cli_helper.rb:25-35 | a set `@lima_info` is returned with no command run; otherwise a failure raises the formatted message, and success stores and returns the parsed output |
| `Lima.CliHelper.Version` | lib/cli_helper.rb:37-39 | `version` is `info['version']`, with `info`'s memo and errors; a failed `info` run raises its message and leaves `@lima_info` as it was |
| `Lima.CliHelper.Start` | lib/cli_helper.rb:49-72 | empty status: "not found"; `Running`: true with no start command; any other status: `[limactl, start, --timeout=Ts, name]`, which raises on failure and is true on success |
| `Lima.CliHelper.Create` | lib/cli_helper.rb:74-112 | error precedence, in order: existing VM, url and config together, neither given. A url creates from the url. A config is stringified and validated first; a failed validation raises, else the file path is the create argument. The create call returns true on success and raises its formatted failure message otherwise |
| `Lima.CliHelper.Stop` | lib/cli_helper.rb:114-126 | argv is `[limactl, stop] ++ [--force] iff force ++ [name]`; a failure is a warning and false, success is true |
| `Lima.CliHelper.Delete` | lib/cli_helper.rb:128-140 | argv is `[limactl, delete] ++ [--force] iff force ++ names`, names in order; a failure is a warning and false |
| `Lima.CliHelper.SshInfo` | lib/cli_helper.rb:142-165 | a cached name returns its hash with no command. Empty output warns, returns `{}` and caches nothing. Other output is parsed and cached under the name. Other names are untouched |
| `ResolveReference.VmMatching` | tasks/resolve_reference.rb:46-51 | `vm_matching?`: the status is `Running`, the only-predicate is absent or accepts the name, and the except-predicate is absent or rejects it. Used by `Matching` and characterised by `MatchingMembers` and `MatchingCompose` |
| `ResolveReference.Matching` | tasks/resolve_reference.rb:54 | the filter keeps at most as many records as there are |
| `ResolveReference.MatchingMembers` | tasks/resolve_reference.rb:46-54 | a record is kept iff it is in the list, its status is `Running`, the only-predicate is absent or accepts its name, and the except-predicate is absent or rejects it |
| `ResolveReference.MatchingAppend` | tasks/resolve_reference.rb:54 | filtering distributes over concatenation, so list order is kept |
| `ResolveReference.MatchingCompose` | tasks/resolve_reference.rb:46-51 | both predicates filter as the only-filter followed by the except-filter |
| `ResolveReference.MatchingWithoutNames` | tasks/resolve_reference.rb:23-24 | with no name options, exactly the running records are kept |
| `ResolveReference.MatchingExample` | spec/tasks/resolve_reference_task_spec.rb:131-144 | with `^debian*` and `_[12]$`, only `debian_3` of the test's four records remains |
| `ResolveReference.CacheStep` | tasks/resolve_reference.rb:57-60 | one lookup caches the name iff it was cached or `show-ssh` printed something; the cached hash gets the record's `IdentityFile`; other names keep their entries |
| `ResolveReference.CacheAfter` | tasks/resolve_reference.rb:56-60 | the cache after the `map` loop has handled the matched records in order, one `CacheStep` per record. Characterised by `CacheAfterKeys`, `CacheAfterUntouched`, `CacheAfterStable` and `CacheAfterEntry` |
| `ResolveReference.CacheAfterKeys` | tasks/resolve_reference.rb:56-60 | after the loop, a name is cached iff it was before, or it matched and `show-ssh` printed something for it |
| `ResolveReference.CacheAfterUntouched` | tasks/resolve_reference.rb:54-60 | names that were filtered out keep their cache entry, or stay absent |
| `ResolveReference.CacheAfterStable` | tasks/resolve_reference.rb:58-60 | apart from `IdentityFile`, a cached hash is what the first `ssh_info` call returned |
| `ResolveReference.CacheAfterEntry` | tasks/resolve_reference.rb:58-60 | the cached hash is the first lookup's result with the `IdentityFile` of the last record of that name |
| `ResolveReference.EntryOptions` | tasks/resolve_reference.rb:56-66 | an entry whose name is cached shares the cache's hash, carrying the last record's `IdentityFile`; any other entry holds only its own record's `IdentityFile` |
| `ResolveReference.OwnIdentityFile` | tasks/resolve_reference.rb:60 | with distinct names, every entry's `IdentityFile` is its own record's, whatever `ssh_info` returned |
| `ResolveReference.ToTarget` | tasks/resolve_reference.rb:31-42 | a target has exactly the keys `uri`, `name` and `config`. `name` is the VM name and `uri` is `ssh://Hostname:Port`. `config` has exactly the key `ssh`. `config.ssh` has exactly `user` (from `User`), `private-key` (from `IdentityFile`) and `host-key-check` (false). No hash in it repeats a key |
| `ResolveReference.Uri` | tasks/resolve_reference.rb:33 | the text of `"ssh://#{cfg['Hostname']}:#{cfg['Port']}"`, nil options interpolating as the empty string. Characterised by `TargetUriOfParsed` and `TargetUriCanonicalPort` |
| `ResolveReference.TargetUriOfParsed` | tasks/resolve_reference.rb:33 | for parsed options, the uri joins the last `Hostname` value and the integer of the last `Port` value |
| `ResolveReference.TargetUriCanonicalPort` | tasks/resolve_reference.rb:33 | a port printed in canonical decimal appears in the uri as printed |
| `ResolveReference.TargetPrivateKey` | tasks/resolve_reference.rb:38 | with distinct names, a target's private key is its list record's `IdentityFile`, and its name is the VM name |
| `ResolveReference.LookUp` | tasks/resolve_reference.rb:57-60 | one `ssh_info` call plus the `IdentityFile` assignment moves the cache by one `CacheStep`. `show-ssh` runs iff the name was not cached |
| `ResolveReference.SshEntries` | tasks/resolve_reference.rb:62-65 | one `{name, ssh_config}` entry per record, in order, holding the name and the hash `SharedOptions` gives on the final cache |
| `ResolveReference.Targets` | tasks/resolve_reference.rb:30-43 | one target per entry, in order, each the `ToTarget` of its entry |
| `ResolveReference.LookUpAll` | tasks/resolve_reference.rb:56-66 | the loop leaves the cache at `CacheAfter`, and each entry holds the hash `SharedOptions` describes. `ssh_info` is asked for exactly the records' names, in order. `show-ssh` runs exactly for the names that were not cached |
| `ResolveReference.ResolveReferenceTask.SetOpts` | tasks/resolve_reference.rb:20-25 | the helper is set once: a given one, else a new one built from the options. The limactl path defaults to `"limactl"`. The name filters are replaced on every call, and an absent option means no filter. The helper's cache and `@lima_info` are those of the helper kept or taken, and empty for a new one |
| `ResolveReference.ResolveReferenceTask.GetSshConfig` | tasks/resolve_reference.rb:53-67 | one entry per matching record, in list order: exactly `SshEntries` of the matched records on the cache `CacheAfter` leaves; `ssh_info` is never asked about a record that was filtered out |
| `ResolveReference.ResolveReferenceTask.ResolveReference` | tasks/resolve_reference.rb:20-44 | `set_opts` first: the helper, `@limactl` and the name filters are as `SetOpts` states. The helper's cache ends at `CacheAfter` of its old cache over the records matching the filters of `opts`. The targets are exactly `Targets` of `SshEntries` of those records on that cache: one per record, in order. The helper's `@lima_info` is kept, and a given helper that is not used is untouched |
| `ResolveReference.ResolveReferenceTask.Task` | tasks/resolve_reference.rb:15-17 | the result is exactly `{value: targets}`, with the targets `resolve_reference` gives: `Targets` of `SshEntries` of the records matching the filters of `opts`, on the cache `CacheAfter` leaves. The task and helper state ends as after `resolve_reference` |

## Left out

- Process execution, the logger and temporary files are left out. `Open3.capture3`, `Logger` output, and `Tempfile` creation, naming and unlinking are I/O. Command results are parameters, and the path of the temporary file is one too.
- JSON, YAML and shell-word splitting are left out. `JSON.parse`, `to_yaml` and `Shellwords.shellwords` are library code. Their results are inputs, and `create` returns the converted config it would write.
- `list` is left out. It only runs `limactl list --json` and parses each line as JSON. `get_ssh_config` takes the parsed records as input.
- A nil `exitstatus` is left out. Ruby gives nil for a process killed by a signal, and the message then reads "failed with status : …". `Exec.exitstatus` is an integer, so the model always prints a number there.
- Regular expressions are left out. The compiled `only_matching_names` and `except_matching_names` patterns are given as name predicates.
- `show-ssh` is modelled as a function of the VM name. A VM whose `show-ssh` output is empty therefore stays uncached on every later lookup.
- Lima.ParseSshOptions: every token is required to contain `=`. A token without one shifts the pairs in `Hash[*pairs.flatten]`, which is core-library behaviour.
- Lima.StringifyValue: hash keys are scalars. A hash or array used as a key, and floating-point values, are not modelled.
- RubyValues.Interpolate: arrays and hashes interpolated into the target uri give the empty string. Their `inspect` text is not modelled.
- Lima.VersionOf: for `limactl info` output that is not a JSON object, the model gives nil. Ruby raises an error instead for an array, a number, `null`, `true` or `false`, and indexes a string by substring.
- The Bolt task wrappers under tasks/ are not part of this model. `create`, `start`, `stop` and `info` only forward to the helper. `list` and `delete` are direct shell-outs.
- The cluster plans are not part of this model. Their Puppet sources are not available, and their batched runs are concurrent.
