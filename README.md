# nss-ubdns lookup layer, modelled in Dafny

nss-ubdns is a name-service switch module. It answers host-name lookups with a
validating DNSSEC resolver, the Unbound library. This project models its lookup layer,
`lookup.c`:

- the process-wide resolver context and the trust-policy configuration;
- initialisation, which
  - creates the context,
  - hands it a resolv.conf,
  - loads every trust anchor of the key directory,
  - reads the policy file;
- teardown;
- the policy check on every validated result;
- the append of a result's address records to the caller's list;
- the forward lookup, an A pass then an AAAA pass followed by a sort;
- the reverse lookup, one PTR query.

The modules follow the parts of the file:

| module | what it holds |
|---|---|
| `Chars` | C string and character helpers |
| `Types` | shared values and constants |
| `TrustPolicy` | `ubdns_check_result` |
| `Settings` | the directive fold of `ubdns_load_cfg` |
| `KeyFiles` | the file-name and line filters of `ubdns_load_keys` |
| `Aggregate` | `ubdns_add_result` |
| `Sorting` | the final `qsort` |
| `Engine` | the Unbound context, as an oracle |
| `Lookup` | specifications of the forward and reverse lookups |
| `Nss` | the class holding the two globals and the operations that change them |

The Unbound context is a class (`Engine.UbCtx`). It records every call made on it:

- the anchors added;
- the resolv.conf files handed to it;
- the queries issued.

Its replies are fixed functions given when it is created. The module's globals `ctx`
and `ubdns_cfg` are the fields of `Nss.Resolver`. Its methods change them as the C
functions do.

`Resolver.Valid()` is the class invariant. It says that a configuration that requires
security never accepts bogus answers. Each method below that changes the configuration
preserves it.

Allocation is modelled by a capacity. `realloc` succeeds while the list holds at most
`capacity` entries, so an append of `k > 0` entries to a list of `n` fails iff
`n + k > capacity`.

Four behaviours of the code are easy to miss; the model follows them:

- **A forward lookup always publishes its list.** `r` is only ever 1 or 0, so the
  `r < 0` branch at line 288 is dead. The entries gathered before a failed pass are
  sorted and handed to the caller. This includes a pass that failed for lack of
  memory.
- **A missing or unreadable key directory is fatal.** `ubdns_load_keys` then returns
  errno, and initialisation deletes the context.
- **A missing resolv.conf is fatal.** If neither resolv.conf exists the status is -1,
  and initialisation deletes the context too.
- **A failed `ub_ctx_create` loads nothing.** It leaves the status at 0 and the
  configuration unread.

## Model

| member | source | states |
|---|---|---|
| TrustPolicy.CheckResult | lookup.c:190-207 | A result is accepted iff it has data, is secure or security is not required, and is not bogus unless bogus answers are accepted; a result without data is always refused |
| TrustPolicy.PolicyByState | lookup.c:190-207 | Under a consistent configuration the ordered checks equal the policy by validation state: secure always, insecure unless security is required, bogus iff bogus is accepted |
| TrustPolicy.BogusGate | lookup.c:200-204 | Under a consistent configuration a bogus answer with data is accepted iff bogus answers are accepted, even when it is also flagged secure |
| TrustPolicy.InsecureGate | lookup.c:195-198 | An insecure, non-bogus answer with data is accepted iff security is not required |
| TrustPolicy.BogusGateNeedsConsistency | lookup.c:195-204 | Without the normalisation an unsigned bogus answer is refused although bogus answers are accepted (a concrete configuration) |
| Settings.ApplyLine | lookup.c:125-132 | One directive line never clears a flag |
| Settings.Normalize | lookup.c:136-137 | The result is consistent; require-secure and logging are kept; accept-bogus survives iff it was set and security is not required |
| Settings.ApplyLinesFlags | lookup.c:124-133 | After the fold each flag is set iff it was set before or some line is its directive (both directions, all three flags) |
| Settings.DirectivesDiffer | lookup.c:125-132 | No line matches two directives, so the order of the tests does not matter |
| Settings.LoadedConfigFlags | lookup.c:120-139 | A readable policy file leaves a consistent configuration; require-secure and logging are set iff set before or named; accept-bogus iff set before or named, and security not required |
| Settings.DirectiveIgnoresCase | lookup.c:125-129 | Every spelling of each of the three directives with any of its letters in upper case matches that directive |
| Settings.DirectiveNeedsNewline | lookup.c:124-129 | No line without a newline, such as a last line that lacks one, matches any of the three directives |
| Chars.CStr | lookup.c:100-103 | The C string of a buffer is its prefix before the first NUL and holds no NUL |
| KeyFiles.IsKeyFileName | lookup.c:72-83 | A directory entry is used iff its name has at least five characters, ends in ".key" and starts with a letter or digit |
| KeyFiles.KeyFileNameExamples | lookup.c:74-83 | "root.key" and "0.key" are used; ".key", ".root.key" and "root.key~" are skipped |
| KeyFiles.LeadingSpaces | lookup.c:98-99 | The count of leading white-space characters: all of them are white space and the next one is not |
| KeyFiles.SkipSpace | lookup.c:96-99 | The loop stops at the first character that is not white space, and that index is LeadingSpaces |
| KeyFiles.LineAnchorShape | lookup.c:95-103 | A line gives no anchor iff the rest after its white space is empty as a C string or starts with ';'; an anchor is a prefix of that rest, non-empty, starts with neither white space nor ';', and holds no NUL |
| KeyFiles.AnchorAfterSkip | lookup.c:98-101 | The anchor is decided by the character at the skipped-to index, and it is the C string from there |
| KeyFiles.KeyLineAnchor | lookup.c:96-103 | The per-line step returns exactly the line's anchor |
| KeyFiles.FileAnchorsMembers | lookup.c:95-104 | A string is an anchor of a key file iff some line of the file gives it |
| KeyFiles.DirAnchorsMembers | lookup.c:63-107 | A string is an anchor of the directory iff some entry contributes it |
| KeyFiles.DirAnchorsWellFormed | lookup.c:63-104 | Every anchor handed to the engine is non-empty, starts with neither white space nor ';', and holds no NUL |
| Aggregate.Matching | lookup.c:218-229 | No more entries than records; each has the family, scope 0 and the family's address size |
| Aggregate.MatchingAppend | lookup.c:218-228 | Entries follow the order of the records: two runs of records give the first run's entries, then the second's |
| Aggregate.MatchingMembers | lookup.c:218-228 | An entry is produced iff some record has the family's address size and holds exactly its bytes |
| Aggregate.MatchingNone | lookup.c:218-219 | Records of the wrong length only give no entry |
| Aggregate.AddResult | lookup.c:209-234 | Returns 0 or -1, and -1 iff the policy accepts the result and the allocator runs out. On failure or rejection the list is unchanged; otherwise the matching entries are appended in record order |
| Sorting.Insert | lookup.c:291 | Inserting into a sorted list gives a sorted list holding one more element |
| Sorting.Sort | lookup.c:291 | The sorted list is sorted and a permutation of its input |
| Sorting.SortIdempotent | lookup.c:291 | Sorting a sorted list leaves it as it is |
| Sorting.SortedPermutationUnique | lookup.c:291 | Under a total order two sorted permutations of one list are equal |
| Sorting.SortIsTheSortedPermutation | lookup.c:291 | Whatever sorted permutation qsort produces is the one Sort computes |
| Lookup.PassOutcome | lookup.c:249-266 | An address pass succeeds iff its query succeeds and its append has memory; it then appends the accepted entries, and otherwise leaves the list alone |
| Lookup.ForwardWithoutContext | lookup.c:246-247 | Without a context the lookup returns 0 with an empty list |
| Lookup.ForwardOtherFamily | lookup.c:249-285 | A family other than AF_INET, AF_INET6 and AF_UNSPEC issues no query and returns 1 with an empty list |
| Lookup.ForwardOutcome | lookup.c:236-301 | Returns 0 or 1, and 1 iff the context exists and every requested pass succeeds; the list is the accepted A entries of a successful A pass, then the accepted AAAA entries of a successful AAAA pass |
| Lookup.ForwardKeepsAWhenAAAAFails | lookup.c:268-300 | For AF_UNSPEC, a failed AAAA pass after a successful A pass returns 0 and still publishes the A entries |
| Lookup.ForwardEntriesWellFormed | lookup.c:236-301 | Every published entry has scope 0, a requested family, and that family's address size |
| Lookup.SortedFamiliesInOrder | lookup.c:291 | Under an order that ranks by family first, every IPv4 entry precedes every IPv6 entry after the sort |
| Lookup.ForwardOneAddress | lookup.c:249-266 | An accepted A answer with one four-byte record gives that one address, and the lookup returns 1 |
| Lookup.ForwardBogusIsEmpty | lookup.c:236-301 | Under the default policy a bogus answer contributes nothing, and the lookup still returns 1 |
| Lookup.ReverseNameByState | lookup.c:330-339 | Under a consistent configuration a name comes back iff the query succeeded with data in an admitted state and there is a first record; the name is that record's |
| Engine.UbCtx.constructor | lookup.c:161 | A created context has the given oracles and nothing configured |
| Engine.UbCtx.AddTa | lookup.c:103 | Adding an anchor appends it to the context's anchors and changes nothing else |
| Engine.UbCtx.ResolvConf | lookup.c:147 | The status is the oracle's for that file, and the file is recorded |
| Engine.UbCtx.Resolve | lookup.c:251 | The reply is the oracle's answer to the query, and the query is recorded |
| Nss.Resolver.constructor | lookup.c:41-46 | Before initialisation there is no context, and every flag is off |
| Nss.Resolver.LoadResolvConf | lookup.c:142-155 | The module's own resolv.conf is used if it exists, else the system's; the status is the engine's, or -1 (nothing handed over) when neither exists |
| Nss.Resolver.LoadKeys | lookup.c:48-111 | An unreadable directory returns its errno and adds nothing; otherwise returns 0 after adding the directory's anchors in entry order and line order |
| Nss.Resolver.LoadEntry | lookup.c:72-104 | An entry adds its anchors iff it is a key file that opens; otherwise nothing |
| Nss.Resolver.LoadKeyFile | lookup.c:95-104 | The anchors of a file's lines are added in line order, and nothing else changes |
| Nss.Resolver.LoadCfg | lookup.c:113-140 | Keeps the configuration invariant. Returns 0; the configuration becomes the normalised fold of the file's directives, or stays as it was when there is no file |
| Nss.Resolver.Init | lookup.c:157-182 | Keeps the configuration invariant. Leaves a context iff creation succeeds and the resolv.conf and key steps return 0. That context holds the chosen resolv.conf and the directory's anchors, and has issued no query. The policy file is read iff the context survives |
| Nss.Resolver.Finish | lookup.c:184-188 | Keeps the configuration invariant. The context is gone; the configuration is unchanged |
| Nss.Resolver.LookupForward | lookup.c:236-301 | The returned list is sorted. Without a context: 0 and an empty list. Otherwise: the status of the forward specification and the sort of its list, with exactly the queries the specification issues |
| Nss.Resolver.AddressPass | lookup.c:249-266 | One pass issues its family's query and yields exactly the outcome of the pass specification |
| Nss.Resolver.LookupReverse | lookup.c:303-340 | No context or another family: no name and no query. Otherwise one PTR query for the reverse name, and the name ReverseName gives for its reply. Under the configuration invariant a name comes back iff the query succeeded with data in a validation state the policy admits and there is a first record |

## Left out

- Chars.IsSpace, Chars.IsAlnum, Chars.ToLower: these are `isspace`, `isalnum` and `tolower` in the "C" locale; the host process's locale is not modelled. Under another locale the C library's classes and case mapping can differ. Under ISO-8859-9, `tolower('I')` is a dotless i, and under Latin-1, `isalnum` holds for accented letters.
- Settings.DirectiveIgnoresCase: holds for `strcasecmp` in the "C" locale only. Under a Turkish locale "REQUIRE-SECURE" is not the directive.
- KeyFiles.IsKeyFileName: the alphanumeric test on the first character is the "C" locale's. Under Latin-1 a name such as "é.key" is loaded by the code and rejected by the model.
- Logging is left out: `openlog`, `syslog` and the latency timing around each query. These are I/O and clocks, and they do not affect results.
- The `res` read in the PTR log line (line 327) after a failed query is not modelled; it is I/O only.
- Memory management is left out: freeing of results, `free` of the list, `ub_ctx_delete` and leaked results on failure paths.
- Nss.Resolver.LookupForward: a pointer left dangling is not captured. If a later `realloc` fails inside `ubdns_add_result` after an earlier one moved the block, the caller keeps its old pointer. The model states the list's contents, not where it lives.
- Aggregate.AddResult: the allocator is a capacity limit, not a real `realloc`; uninitialised address bytes past the record length are not modelled.
- `address_compare` is not part of this model. The sort takes any total order, and the uniqueness of sorted permutations ties the model to whatever `qsort` does.
- The reverse-name synthesis (`arpa_qname_ip4`, `arpa_qname_ip6`) and `domain_to_str` are not part of this model. They are parameters of `Nss.Resolver.LookupReverse`.
- Unbound itself (network, cache, validation) is an oracle fixed at context creation. It gives the same reply to the same query every time.
- Directory and file reads are values: the listing with its entries, and each entry's lines, or none when `openat`/`fdopen` fails. `readdir_r` errors end the listing like its end does.
- The `constructor` and `destructor` attributes, and thread safety, are not modelled; `Init` and `Finish` are ordinary methods.
