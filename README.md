# vllm-now launcher, modelled in Dafny

`vllm_now/main.py` turns an ordered list of GPU ids and a bag of launch
parameters into two text files: a docker-compose manifest with one vLLM
server per group of GPUs, and an nginx configuration that balances
requests over those servers. This project models the part of that file that
computes those texts:

- the device list: `CUDA_VISIBLE_DEVICES`, when set to a non-empty value,
  is parsed with `int()`; otherwise the ids discovered on the machine are used;
- the partition of that list into groups of `tensor_parallel_size` ids;
- the flag renderer: the command lines of each server;
- `make_nginx_conf`;
- `make_docker_compose_yml`, including the marker-based splicing of the
  Hugging Face token lines;
- the checks of `main`, the `vllm_version` pop, the type check, and the
  wiring `n_servers=len(gpu_groups)`.

Modules, in dependency order:

| file | module | models |
|---|---|---|
| text.dfy | `Text` | Python's `sep.join`, `str.replace` (scanning left to right), and reading framed values back out of lines (`Pick`) |
| numerals.dfy | `Numerals` | `str(int)`, `int(str)`, `str.split` |
| names.dfy | `Names` | the service names `vllm-server-<i>` |
| params.dfy | `Params` | the parameter bag (an ordered `seq<(string, Value)>`) and the flag renderer |
| devices.dfy | `Devices` | the `CUDA_VISIBLE_DEVICES` branch and the partition into groups |
| nginx.dfy | `Nginx` | `make_nginx_conf` |
| compose.dfy | `Compose` | `make_docker_compose_yml` |
| launcher.dfy | `Launcher` | the body of `main` up to the two file writes |

Pure parts are functions: the partition, the flag lists, and the nginx
template with its two `replace` calls. The compose generator rebinds
`config` step by step and sets `env_used`, so it is the method
`Compose.MakeDockerComposeYml`, which runs the same `replace` chain.
`main` is the method `Launcher.Launch`. It pops `vllm_version` by
rebinding its local bag, and its type check is the loop of
`Launcher.CheckTypes`.

The manifest is specified by its lines (`Compose.ManifestLines`): the
rendered template with the credential lines where the markers were, and
no markers at all. The method is proved to produce exactly
`JoinLines(ManifestLines(...))` when no user-supplied text (image tag,
parameter names and values, `HF_HOME`, `HF_TOKEN_PATH`, port) contains a
line break or a `#` (`Compose.Clean`). That hypothesis keeps the markers
`    # NEW VOLUME HERE` and `    # NEW ENVIRONMENT HERE` unique in the
text.

The model follows the code, including these behaviours a reader may not expect:

- Every bool parameter, `False` included, is rendered as a bare `--name`
  (`vllm_now/main.py:58-64`). The condition is `isinstance(v, bool)`, not
  the truth of `v`.
- `tensor_parallel_size` is read with `.get`, not popped, so it is also
  rendered as a `--tensor-parallel-size=<n>` flag.
- The type check accepts bools, because Python's bool is a subclass of
  int. Only values that are not an int, float or str fail (a list, tuple,
  dict, set, `None`, a complex number or bytes, all of which Fire can
  produce); the model represents them as `Value.Composite`.
- The group size is compared with `>= 1` before anything else:
  - an int below 1 or `False` fails the assertion;
  - `True` counts as 1;
  - a string or a container raises `TypeError`.

  Both failures stop `main` before anything is written.

Environment reads become parameters (`Launcher.Env`): `CUDA_VISIBLE_DEVICES`,
`HF_HOME`, `HF_TOKEN_PATH` and `VLLM_NOW_PORT`. The GPUs the machine
reports are the `discovered` argument. The defaults of the `getenv` calls
are `Launcher.PortText` (port `80`, `vllm_now/main.py:12`) and
`Compose.HomeDir` (`~/.cache/huggingface/`, `vllm_now/main.py:82`).

## Model

| member | source | states |
|---|---|---|
| Devices.PartitionShape | vllm_now/main.py:168-172 | with group size g ≥ 1 there are exactly `|ids| / g` groups; group j is `ids[j*g .. j*g+g]`, so every group has exactly g ids |
| Devices.PartitionPrefix | vllm_now/main.py:168-172 | the groups concatenated are the first `g * (|ids| / g)` ids, in order; fewer than g ids remain, and they are dropped rather than emitted as a short group |
| Devices.PartitionOfOnes | vllm_now/main.py:168-172 | concrete case: ids [0,1,2] with g = 1 give [[0],[1],[2]] |
| Devices.PartitionOfTwos | vllm_now/main.py:168-172 | concrete case: ids [0,1,2] with g = 2 give [[0,1]]; the trailing id is dropped |
| Devices.ParseAllSpec | vllm_now/main.py:51 | `list(map(int, parts))` succeeds exactly when every part parses, and then yields one id per part, in order |
| Devices.ParseIdListText | vllm_now/main.py:51 | round trip: the comma-joined decimal text of a non-empty id list parses back to that list, in the given order |
| Devices.DeviceIdsSource | vllm_now/main.py:50-53 | an unset or empty `CUDA_VISIBLE_DEVICES` gives the discovered ids; a set one gives exactly the ids its text lists |
| Numerals.ParseIntToString | vllm_now/main.py:51 | `int(str(n)) == n` for every integer, negative ones included |
| Numerals.JoinSplit | vllm_now/main.py:51 | `s.split(c)` on separator-free pieces joined by c gives the pieces back |
| Numerals.SplitJoin | vllm_now/main.py:51 | joining the pieces of `s.split(c)` with c gives s back, and no piece contains c |
| Names.ServiceNameInjective | vllm_now/main.py:45 | distinct indices give distinct service names `vllm-server-<i>` |
| Params.Lookup | vllm_now/main.py:162 | `dict.get`: None exactly when no entry has the key; otherwise the value of an entry with that key |
| Params.Without | vllm_now/main.py:175 | `dict.pop`: no entry with the key remains, and the bag does not grow |
| Params.WithoutConcat | vllm_now/main.py:175 | the pop is an order-preserving filter: popping from `a + b` gives the pop of `a` followed by the pop of `b` |
| Params.WithoutSingle | vllm_now/main.py:175 | a single entry survives the pop exactly when its name is not the key, so together with `WithoutConcat` the remaining entries keep their order |
| Params.WithoutKeeps | vllm_now/main.py:175 | after the pop, the key is absent and every other key looks up as before |
| Params.WithoutFrom | vllm_now/main.py:175 | every entry left after the pop is an entry of the original bag |
| Params.ValueFlagsPlaced | vllm_now/main.py:98 | there is one value flag per non-bool entry, and entry j's flag `--name=value` sits at its rank among the non-bool entries: insertion order |
| Params.ToggleFlagsPlaced | vllm_now/main.py:58-64 | there is one bare `--name` per bool entry, and entry j's sits at its rank among the bool entries: insertion order |
| Params.RankStrict | vllm_now/main.py:58-64 | an earlier entry of a kind ranks strictly before every later entry of that kind |
| Params.RanksCover | vllm_now/main.py:58-64 | every entry is counted either as a bool or as a non-bool, never both |
| Params.FlagsFromEntries | vllm_now/main.py:58-64 | every flag comes from an entry of the bag of the matching kind |
| Params.CommandTextLines | vllm_now/main.py:57-66 | the text of line 98, `flag_kwargs_field` included, is exactly the command lines: one `    - ` item per flag, plus a lone empty item when there is no value flag |
| Params.CommandLinesOrder | vllm_now/main.py:57-98 | the value flags come first, in insertion order, then the toggles, in insertion order, each on its own item line |
| Params.CommandLinesAvoid | vllm_now/main.py:98 | a character absent from every name and value text, and not part of the item syntax, appears on no command line |
| Params.HyphenateOnly | vllm_now/main.py:60 | for names without a `-` of their own, `replace('_', '-')` is injective |
| Params.SameFlagName | vllm_now/main.py:98 | for names without `=`, a flag `--a=v` starts with `--b=` only when a is b |
| Nginx.MakeNginxConfText | vllm_now/main.py:20-46 | the rendered configuration is the fixed template with `str(worker_connections)` in the worker slot and the joined upstream entries in the server slot |
| Nginx.UpstreamText | vllm_now/main.py:44-45 | the upstream slot holds exactly n lines `server vllm-server-<i>:8000;`, and reading them back gives the indices 0..n-1 in increasing order |
| Nginx.NoSlotsLeft | vllm_now/main.py:41-46 | neither `[WORKER_CONNECTIONS]` nor `[SERVER_LIST]` survives in the output |
| Compose.TemplateTextLines | vllm_now/main.py:92-115 | the rendered f-string, including the multi-line command list, service blocks and `depends_on` list, is the template's lines joined by line breaks |
| Compose.ChainWithToken | vllm_now/main.py:117-134 | with a token, the replace chain puts the token volume before the volume marker and the token variable before the environment marker, then removes both markers |
| Compose.ChainWithoutToken | vllm_now/main.py:129-134 | without a token, the replace chain removes the `  environment:` line, then both markers, leaving every other line as it was |
| Compose.Token | vllm_now/main.py:117-118 | `if hf_token_path:`: an unset or empty `HF_TOKEN_PATH` means no credentials |
| Compose.Rendered | vllm_now/main.py:117-134 | for clean inputs, both branches of the replace chain, with and without a token path, end in the marker-free manifest of `ManifestLines` |
| Compose.MakeDockerComposeYml | vllm_now/main.py:56-136 | for clean inputs, the method's output is exactly the marker-free manifest of `ManifestLines`, with the credential lines exactly when a token path is set |
| Compose.ManifestNoMarkers | vllm_now/main.py:132-134 | neither `# NEW VOLUME HERE` nor `# NEW ENVIRONMENT HERE` remains in the manifest |
| Compose.EnvironmentIffToken | vllm_now/main.py:117-130 | the manifest has an `  environment:` line exactly when a token is given |
| Compose.ManifestCommand | vllm_now/main.py:96-98 | the command list starts with `--disable-log-requests`; for any bag entry, a value entry's flag follows at its rank among the value entries, a bool entry's flag after all value lines at its rank among the bool entries |
| Compose.ServiceNames | vllm_now/main.py:68-106 | the service headers name `vllm-server-0 .. vllm-server-(n-1)`, one per group, in group order |
| Compose.ServiceDevices | vllm_now/main.py:68-106 | the `device_ids` of service i are group i as a Python list of strings |
| Compose.DependsNames | vllm_now/main.py:113-114 | the load balancer's `depends_on` lists `vllm-server-0 .. vllm-server-(n-1)`, in order |
| Launcher.GroupSize | vllm_now/main.py:162-163 | a missing `tensor_parallel_size` means 1; an int n counts as itself when n ≥ 1; `True` counts as 1; `False` and ints below 1 fail the assertion; a string or a container makes the comparison raise `TypeError`, exactly then; any group size accepted is at least 1 |
| Launcher.CheckTypes | vllm_now/main.py:178-179 | the loop reports the first parameter whose value is not int, float or str, and nothing when there is none |
| Launcher.FirstInvalidSpec | vllm_now/main.py:178-179 | the type check passes exactly when every value is a scalar; otherwise it names a non-scalar entry with only scalars before it |
| Launcher.Launch | vllm_now/main.py:161-184 | `main` rejects exactly the inputs `Validate` rejects, with the first failing check in source order. Otherwise the groups are the partition of the device ids and the nginx file is rendered for `len(groups)` servers with 4096 connections. For clean inputs, the manifest is rendered for the bag without `vllm_version` |
| Launcher.ServersAgree | vllm_now/main.py:184 | for any groups, such as the groups `Launch` returns and renders both files for, the nginx upstream list, the compose service headers and `depends_on` all name the same servers 0..n-1, in the same order, one per group |
| Launcher.ServiceDevicesArePartition | vllm_now/main.py:168-172 | service i reserves exactly the ids `ids[i*g .. i*g+g]`, and there are `|ids| / g` services |
| Launcher.VersionNeverFlag | vllm_now/main.py:174-175 | after the pop, no toggle is `--vllm-version` and no value flag starts with `--vllm-version=`, for parameter names as Fire delivers them (no `-`, no `=`) |
| Launcher.ImageTag | vllm_now/main.py:174-175 | the image tag is a string `vllm_version` as given and defaults to `latest`, and the manifest's second line (template line 94) is `  image: vllm/vllm-openai:<tag>` |

## Left out

- `_save_file` and the usage prints (`vllm_now/main.py:15-17`, `185-198`): file and terminal output. `Launch` returns the two texts instead of writing them.
- `GPUtil.getGPUs()` (`vllm_now/main.py:53`): a foreign library. Its ids are the `discovered` parameter.
- `os.getenv` (`vllm_now/main.py:12`, `50`, `82`, `117`): the variables are the fields of `Launcher.Env`.
- `Fire`, `run` and `_get_docker_compose_command` (`vllm_now/main.py:155-158`, `201-202`): process and PATH plumbing.
- `_clean_argv` (`vllm_now/main.py:139-152`): `main` never calls it, and it only reads and edits `sys.argv`.
- Float parameter values: Python's `str(float)` formatting is not modelled. `Value` has bools, ints, strings, and `Composite` for the values the type check rejects. Float group sizes are outside the model too: `2.0` passes `>= 1` and then makes `range` raise `TypeError`, and `0.5` fails the assertion (`vllm_now/main.py:162-170`).
- Numerals.ParseInt: it accepts ASCII digits and the ASCII whitespace `str.strip()` removes, U+001C..U+001F included. Python's `int()` also takes non-ASCII Unicode digits and whitespace (U+0085, U+00A0 and others), which are not modelled.
- Compose.MakeDockerComposeYml: its output is characterised only for clean inputs, where no user text has a line break or a `#`. The clean condition is sufficient, not necessary. With other inputs, a user text could contain marker text that the source's `replace` calls would also rewrite, and the model states nothing about that case.
- Compose.ServiceNames, Compose.ServiceDevices and Compose.DependsNames read the values back from the service, device and `depends_on` lines. The fixed lines around them are covered only by `ManifestLines` and the method's equality, not by these lemmas. Likewise, Nginx.UpstreamText reads the upstream lines only, and `MakeNginxConfText` covers the fixed text.
- Devices.Partition: requires g ≥ 1. `main` asserts that before partitioning (`vllm_now/main.py:163`), and `Launch` calls it only then.
- Launcher.VersionNeverFlag: stated only for parameter names without `-` or `=`. Fire converts hyphens in option names to underscores, and a name with `=` would become ambiguous flag text.
- Launcher.Launch: `main`'s assertions and `TypeError` are modelled as `Rejected` outcomes. The exception messages are not modelled.
- Launcher.Launch: the compose artifact is characterised only for clean inputs, as for Compose.MakeDockerComposeYml. For other inputs, the contract states only the groups and the nginx file.
