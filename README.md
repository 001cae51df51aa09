# srv9p core, modelled in Dafny

srv9p serves a synthetic 9P file tree from a Raspberry Pico 2 W. This
project models four sequential parts of it and proves properties about them:

- **Namespace** (`namespace.go`) is the file tree. A table maps Qid paths
  to entries. Directories keep a map from child name to child, and a
  counter hands out Qid paths. The model covers path resolution (`Get`),
  insertion (`new`, `NewFile`, `NewDir`), `Walk`, and what `Read` and
  `Stat` choose to answer. Entry pointers become Qid paths: a child map
  holds name to Qid path, and the table resolves each path to its entry.
- **File providers** (`files.go`): `NopFile`, `TextFile` and `FuncFile`, as
  one datatype with `Read` and `Write`.
- **Status display** (`status.go`) covers the closed set of status codes,
  `Set`, `Get` and `Trap`, and one round of the blinking goroutine. A round
  splits a code into long and short blinks, then counts the repeat counter
  down in 32-bit arithmetic.
- **Device networking** (`device_pico2w.go`):
  - one iteration of the packet pump `nicLoop`, which has three frame
    slots with retry counters;
  - the bring-up state machine `SetupWithDHCP` and its `SetupListener`
    wrapper;
  - the ARP poll `ResolveHardwareAddr`;
  - `NewResolver`, and the DNS lookup `LookupNetIP` with its poll budget
    and its filter for four-byte answers.

Go panics are results, not preconditions: `Outcome` has a `Panic` case
beside `Ok` and `Fail`. The radio driver, the network stack's DHCP, ARP
and DNS clients, and `netip.ParseAddr` are oracles. They are sequences of
the results successive calls return, or function parameters. Waits are
counted, not timed. Go's randomised map iteration order, used when walking
or listing a directory, is modelled as an arbitrary choice.

Files: `base.dfy` holds shared types, int32 truncation and first-index
search. `files.dfy`, `status.dfy`, `paths.dfy` (the `strings.Split`,
`TrimRight` and `LastIndex` behaviour the namespace relies on),
`namespace.dfy`, `pump.dfy`, `netaddr.dfy`, `bringup.dfy` and
`resolve.dfy` follow the source files.

## Model

| member | source | states |
|---|---|---|
| Base.ToInt32 | status.go:88-93 | The Go `int32(x)` conversion: the result lies in the int32 range, is congruent to x modulo 2^32, and is x itself when x already fits |
| Files.NewTextFile | files.go:56-60 | A text provider holds exactly the given content |
| Files.NewFuncFile | files.go:76-80 | A function provider holds exactly the given function |
| Files.Read | files.go:38-85 | NopFile reads as empty data with no error; TextFile reads as its body; FuncFile reads as whatever its function returns, data or error |
| Files.Write | files.go:43-73 | Every provider writes through the embedded NopFile: no error, and the provider is unchanged |
| Files.WritesChangeNothing | files.go:43-73 | No sequence of writes changes a provider or what it reads |
| Files.TextFileReadsBackContent | files.go:56-65 | A TextFile reads back exactly its creation content after any writes |
| Status.CodesAreConsecutive | status.go:30-45 | The fourteen status codes are the distinct consecutive values 0..13, StatUNK=0 and StatOK=1 through StatEXCP=13 |
| Status.Blinks | status.go:65-78 | For a code n >= 1 the round shows L long and S short blinks with 5L + S = n and 1 <= S <= 5; for n <= 0 none |
| Status.BlinkCounts | status.go:65-78 | The two blink loops (`num -= 5` while above 5, then `num` short blinks) produce exactly the decomposition Blinks states |
| Status.BlinksAreDistinct | status.go:65-78 | Distinct positive codes have distinct blink patterns |
| Status.Round | status.go:79-81 | A round decrements the int32 repeat counter with wrap-around and reverts to StatOK exactly when the new value is 0 |
| Status.SetShowsForRepeatRounds | status.go:79-93 | After Set(f, k) with 1 <= k < 2^31, the code f is shown for exactly k rounds, after which the status is StatOK with repeat 0 |
| Status.RoundsSplit | status.go:79-81 | n+1 rounds are n rounds followed by one more |
| Status.ZeroRepeatNeverReverts | status.go:79-93 | After Set(f, 0), any number of rounds below 2^32 keeps showing f, because the counter wraps below zero and is never exactly 0 |
| Status.Set | status.go:88-93 | Set stores int32(flag) and int32(num) and keeps the state valid; on a nil receiver nothing changes |
| Status.Status.Get | status.go:96-98 | Get returns the stored (code, repeat) pair, both within int32 |
| Status.Status.constructor | status.go:56-61 | A new status shows StatOK with repeat 0 |
| Status.Status.Tick | status.go:65-81 | One display round emits Blinks(code) and moves the state by Round |
| Status.Status.Trap | status.go:101-112 | With status StatOK on entry, a recovered panic sets StatEXCP and no panic sets StatUNK, both with repeat 0; any other status is left unchanged |
| Paths.Split | namespace.go:148 | `strings.Split` on '/': at least one piece, and no piece contains '/' |
| Paths.JoinSplit | namespace.go:148 | Joining the pieces with '/' gives back the input |
| Paths.SplitAtSlash | namespace.go:148 | Splitting a + "/" + b gives the pieces of a followed by those of b |
| Paths.NonEmptyAppend | namespace.go:148-151 | Dropping empty labels distributes over concatenation |
| Paths.LabelsAtSlash | namespace.go:148-151 | The non-empty labels of a + "/" + b are those of a followed by those of b |
| Paths.SlashesDoNotMatter | namespace.go:148-151 | "/" has no labels; a leading, a trailing or a doubled slash does not change the labels |
| Paths.TrimRight | namespace.go:169 | `strings.TrimRight(path, "/")` returns a prefix with no trailing '/', and it removes only slashes |
| Paths.TrimRightKeepsLabels | namespace.go:169 | Trimming trailing slashes keeps the labels |
| Paths.LastSlash | namespace.go:170 | `strings.LastIndex(path, "/")` gives the index of the last '/', or -1 exactly when there is none |
| Namespaces.IsDir | namespace.go:65-74 | An entry is a directory exactly when it has a children map; otherwise it is a file entry with a content provider |
| Namespaces.MakeEntry | namespace.go:117-139 | With no provider the entry is a directory with an empty child map, type QTDir and the DMDir bit set; otherwise it is a file with type QTFile, the provider and the plain mode; either way it carries the given id, name, owner and version 0 |
| Namespaces.ResolveAsWritten | namespace.go:147-162 | The resolution loop of Get as written: a result it finds is in the table; a missing child panics, which is the nil Walk result being dereferenced |
| Namespaces.GetSpec | namespace.go:143-163 | Get: an empty path panics on `path[0]`, a path not starting with '/' fails with NoAbs, and every entry returned is in the table |
| Namespaces.ResolveIntended | namespace.go:147-162 | Resolution with the nil check Get evidently intends: it never panics, and a missing child fails with NoFile |
| Namespaces.GetIntended | namespace.go:143-163 | Get with that nil check: an empty path panics on `path[0]`, a path not starting with '/' fails with NoAbs, and the entries returned are in the table |
| Namespaces.ResolveCorrects | namespace.go:155-158 | The written resolution panics exactly where the intended one reports NoFile, and agrees with it otherwise; the written one never reaches its errNoFile branch |
| Namespaces.ResolveSkipsEmpty | namespace.go:148-151 | Empty labels are skipped: resolving a label list equals resolving its non-empty labels |
| Namespaces.LookupByLabels | namespace.go:143-163 | A path resolves by its non-empty labels; "/" and "//" give the root; a trailing or doubled slash changes nothing |
| Namespaces.FileHasNoChildren | namespace.go:152-154 | Descending through a file entry fails with NoDir, in both resolutions |
| Namespaces.ResolveClimbs | namespace.go:147-162 | Resolution only moves to entries with larger Qid paths, since children are always created after their parents |
| Namespaces.Linked | namespace.go:196-198 | A successful `new` sets only `parent.children[name]` and `dict[entry.Path]`; every other entry is unchanged |
| Namespaces.LinkedWellFormed | namespace.go:185-200 | Linking a fresh entry under a directory keeps the table well formed |
| Namespaces.LinkedKeepsResolve | namespace.go:185-200 | Linking keeps every path that resolved to the parent resolving to it |
| Namespaces.InsertAsWritten | namespace.go:185-200 | `new`: a Get failure or panic passes through, a non-directory parent fails with NoDir, and a failure leaves the table unchanged; on success the result is the linked table, still well formed, and a same-name child is replaced while the old entry stays in the table |
| Namespaces.NewAsWritten | namespace.go:165-200 | NewFile/NewDir as written: with the arguments of `new` evaluated left to right, the counter advances by one exactly when the written parent split succeeds and is otherwise unchanged, as for a relative path or a panicking slice; failures leave the table unchanged, and the table stays well formed |
| Namespaces.ParentAsWritten | namespace.go:165-171 | The written split: an empty path panics, a relative one fails with NoAbs, every top-level name panics, and a parent it does return is the intended parent minus its last character |
| Namespaces.ParentOf | namespace.go:165-182 | The intended parent/name split: it panics only on the empty path (`path[0]`), and a relative path fails with NoAbs |
| Namespaces.ParentOfSplitsLabels | namespace.go:165-182 | A successful split yields an absolute parent and a non-empty, slash-free name, and the labels of the path are the parent's labels plus the name |
| Namespaces.ParentAsWrittenDefects | namespace.go:171 | The written `path[:idx-1]` panics for "/readme" and turns "/sensors/temp" into parent "/sensor"; the intended split gives "/" and "/sensors" |
| Namespaces.MissingChildPanics | namespace.go:155-156 | Get("/x") with no child x panics as written, while the intended lookup reports NoFile |
| Namespaces.CreatedIsFound | namespace.go:185-200 | After a successful insertion under the intended split, the new path resolves to the new entry |
| Namespaces.ResolveAppend | namespace.go:147-162 | Resolving labels + [name] is resolving name from where labels lead |
| Namespaces.Namespace.constructor | namespace.go:97-106 | NewNamespace creates exactly one entry: the root "/" at Qid path 0, a directory with mode 0555 or DMDir, and the counter at 1 |
| Namespaces.Namespace.NewId | namespace.go:109-113 | newId returns the current counter and increments it |
| Namespaces.Namespace.NewEntry | namespace.go:117-139 | newEntry builds MakeEntry with the next id and consumes it; the entry is fresh for the table |
| Namespaces.Namespace.Walk | namespace.go:220-228 | Walk panics exactly on an unknown Qid path, which dereferences a nil entry; otherwise it returns the Qid of the child whose name is `next`, or nil exactly when no child has that name |
| Namespaces.Namespace.Get | namespace.go:143-163 | The loop computes GetSpec, panic included |
| Namespaces.Namespace.Lookup | namespace.go:143-163 | The intended Get, Get's loop with Walk's nil result answered by errNoFile, computes GetIntended; it panics only on the empty path |
| Namespaces.Namespace.Link | namespace.go:196-198 | Linking under a directory keeps the namespace valid and produces Linked |
| Namespaces.Namespace.Insert | namespace.go:185-200 | `new` computes InsertAsWritten and keeps the namespace valid |
| Namespaces.Namespace.NewFile | namespace.go:165-172 | NewFile computes NewAsWritten with the provider |
| Namespaces.Namespace.NewDir | namespace.go:175-182 | NewDir computes NewAsWritten with no provider |
| Namespaces.Namespace.NewAt | namespace.go:165-182 | The shared body of NewFile and NewDir computes NewAsWritten |
| Namespaces.Namespace.Create | namespace.go:165-200 | Insertion with the intended split: on success the table is exactly Linked from the old one (every other entry stays), and the path resolves to the new entry, built by MakeEntry with the next id; on failure nothing changes |
| Namespaces.Namespace.Stat | namespace.go:260-266 | Stat answers the entry's Dir record exactly when the Qid path is in the table, and NoFile otherwise |
| Namespaces.Namespace.Read | namespace.go:237-258 | An unknown Qid path gives NoFile; a directory lists exactly its children's Dir records; a file gives its provider's data or error |
| NamespaceTest.RootTable | namespace.go:97-106 | The table NewNamespace builds is well formed with counter 1 |
| NamespaceTest.TestNamespacePanics | namespace_test.go:30-32 | The test's first NewFile("/readme", ...) panics as written |
| Pump.FillFrom | device_pico2w.go:374-389 | The fill loop leaves slots under retry untouched, keeps every retry count, and changes no slot before its start |
| Pump.CallsFrom | device_pico2w.go:374-389 | HandleEth is called only for slots whose retry count is 0, in increasing slot order |
| Pump.CallsExactFrom | device_pico2w.go:374-389 | From slot i on, HandleEth is called for slot j exactly when j is idle and no slot from i to j returned a zero count |
| Pump.CallsExact | device_pico2w.go:374-389 | HandleEth is called for every idle slot the fill loop reaches and for no slot after a zero count |
| Pump.SendSlot | device_pico2w.go:400-416 | For a slot with a frame, the slot is cleared exactly when the send succeeds or the frame is dropped; a slot not cleared keeps its frame and gains one retry if it had a frame |
| Pump.Step | device_pico2w.go:374-416 | An iteration is Fill followed by SendSlot on every slot: skipping the send step when all lengths are 0 changes nothing |
| Pump.SendAll | device_pico2w.go:400-416 | The send loop treats each slot on its own, by SendSlot |
| Pump.FillSkipsRetrying | device_pico2w.go:375-377 | Filling never touches a slot whose retry count is non-zero |
| Pump.FillStopsAtZero | device_pico2w.go:386-388 | When HandleEth returns 0 for a reached slot, the slot is empty and no later slot changes |
| Pump.FillContinuesAfterError | device_pico2w.go:381-385 | A HandleEth error sets that slot's length to 0 and the fill goes on to the next slot |
| Pump.FillShape | device_pico2w.go:374-389 | Filling keeps every buffer at MTU size and every length within it |
| Pump.StepKeepsSlotsOk | device_pico2w.go:354-416 | At the top of every iteration, retry count 0 implies length 0, and a positive retry count implies a frame and at most 3 retries |
| Pump.RetriedFrame | device_pico2w.go:400-416 | A frame under retry that fails again gains a retry, or is cleared as dropped when it already had 3 |
| Pump.NewFrameFirstFailure | device_pico2w.go:378-416 | A frame just queued whose first send fails stays with one retry |
| Pump.FrameDroppedAfterFourAttempts | device_pico2w.go:354-416 | A frame whose sends keep failing is sent in four consecutive iterations, then its slot is cleared and the drop is reported only on the fourth |
| Pump.SentFrameCleared | device_pico2w.go:413-415 | A successful send clears the slot: zero buffer, length 0, retries 0 |
| Pump.FillAdvance | device_pico2w.go:374-389 | One turn of the fill loop, for each of its four branches |
| Pump.PacketPump.constructor | device_pico2w.go:351-353 | The three arrays start zeroed |
| Pump.PacketPump.MarkSent | device_pico2w.go:354-358 | markSent zeroes the slot's buffer, length and retry count |
| Pump.PacketPump.FillSlot | device_pico2w.go:378-388 | One HandleEth call stores the buffer it leaves and its count in the slot, or length 0 after an error, and the fill stops exactly on a zero count without error |
| Pump.PacketPump.FillQueue | device_pico2w.go:374-389 | The fill loop computes Fill on the slots and calls HandleEth for exactly CallsFrom |
| Pump.PacketPump.SendQueue | device_pico2w.go:400-416 | The send loop computes SendAll, calls SendEth for exactly the slots with a frame, and reports the dropped frames |
| Pump.PacketPump.Iterate | device_pico2w.go:359-416 | One iteration keeps the slot invariant and computes Step; the send step is skipped when every length is 0, and the loop sleeps exactly when, in addition, no packet was polled |
| Netip.AddrFrom4 | device_pico2w.go:315-316 | A four-byte record gives a valid address with those bytes |
| Bringup.RequestedAddr | device_pico2w.go:129-135 | No configured text means the zero address; otherwise the parser's answer |
| Bringup.SetupStatus | device_pico2w.go:120-226 | A malformed requested IP gives StatIP, an Init failure StatWIFI, five failed joins StatWPA2, a BeginRequest error StatDHCP1, and StatDHCP2 exactly when 16 checks find no lease and the requested address is not valid; otherwise StatOK, and no other code is returned |
| Bringup.SetupWithDHCP | device_pico2w.go:120-226 | Init is called only after the address parses; there is no join attempt and no wait unless Init is called and succeeds; joining stops at the first success, after at most 5 attempts with a wait after each failure; the stack exists exactly from a successful join on; a BeginRequest error gives StatDHCP1; a lease found at check j after j waits sets the offered address, and 16 checks without one fall back to the requested address when it is valid, otherwise no address and StatDHCP2 |
| Bringup.SetupListener | device_pico2w.go:61-95 | A foreign device gives StatDEV; a bring-up failure passes its code through; a listener failure gives StatLISTEN1; a start failure gives StatLISTEN2 but still returns the listener |
| Resolve.ArpSpec | device_pico2w.go:229-253 | "invalid ip" exactly for an invalid address; a timeout only after 20 not-done checks; every error but a ResultAs6 error comes with a zero address; a result is ResultAs6's answer for a valid address, an accepted request and a check that found it done |
| Resolve.ResolveHardwareAddr | device_pico2w.go:229-253 | An invalid IP errors without any ARP call; Abort comes before BeginResolve; done at check j < 20 means j waits and ResultAs6's answer; 20 not-done checks and 19 waits give "arp timed out" with a zero address |
| Resolve.DnsServerAsWritten | device_pico2w.go:263-275 | NewResolver as written: an invalid first server fails, and an empty server list panics |
| Resolve.DnsServer | device_pico2w.go:263-275 | The intended choice never panics: the first server, or the zero address for an empty list |
| Resolve.DnsServerCorrects | device_pico2w.go:266-273 | The two choices differ only on the empty list, where the corrected resolver's lookups fail at ARP with "invalid ip" |
| Resolve.NewResolver | device_pico2w.go:263-275 | A resolver is built exactly when DnsServer does not fail, with the chosen server and a zero hardware address |
| Resolve.IPv4Answers | device_pico2w.go:311-317 | The filter keeps only four-byte answers as valid addresses, never more than there are answers |
| Resolve.IPv4AnswersAppend | device_pico2w.go:311-317 | The filter distributes over concatenation, so it keeps answer order |
| Resolve.IPv4AnswersMembers | device_pico2w.go:311-317 | An address is in the result exactly when some answer carries its four bytes |
| Resolve.CollectIPv4 | device_pico2w.go:310-317 | The append loop computes IPv4Answers |
| Resolve.FinalCheck | device_pico2w.go:292-302 | The IsDone result acted on is one of the first 101 checks |
| Resolve.PollDNS | device_pico2w.go:292-302 | The poll waits once per not-done check, up to 100; it times out exactly when the first 100 checks and the final one are all not done; the RCODE is the final check's |
| Resolve.LookupSpec | device_pico2w.go:277-322 | A successful lookup returns exactly the four-byte answers, and at least one |
| Resolve.LookupOutcomes | device_pico2w.go:292-322 | A timeout means no check found the query done; success needs a success RCODE and a four-byte answer |
| Resolve.Resolver.constructor | device_pico2w.go:268-273 | A resolver holds the chosen server and a zero hardware address |
| Resolve.Resolver.LookupNetIP | device_pico2w.go:277-328 | The lookup computes LookupSpec on the ARP result for the server, and stores the ARP hardware address even when it is an error's zero address |

## Left out

- Namespaces.NewAsWritten, Namespaces.ParentAsWritten: paths are sequences of characters, while Go's `strings.LastIndex` and `path[:idx-1]` count bytes. The written split drops a whole character where Go drops one byte, so the two differ when the character before the last '/' is not ASCII: Go's parent then ends in half a UTF-8 sequence, and resolving it panics. ParentAsWritten and NewAsWritten follow the character reading. ParentOf, Labels and Get cut at '/' itself, where bytes and characters agree.
- Namespaces.NewAsWritten: in `ns.new(path[:idx-1], ns.newEntry(...))` the model evaluates the arguments left to right, so a panicking parent slice leaves the counter unchanged. Go does not fix whether the slice or the `newEntry` call, which advances the counter, runs first. The difference shows only if the panic is recovered.
- Pump.PacketPump.Iterate, Pump.StepKeepsSlotsOk: both assume that HandleEth returns a count 0 <= n <= mtu and leaves a buffer of MTU size (the HandledOk oracle condition). The source does not check the count.
- Namespaces.Namespace.NewId: `nextID` is a uint64 in the source; the model's counter is unbounded, so it does not model wrap-around after 2^64 entries.
- `Entry.SetOwner`, and the 9P handlers `Serve`, `Attach` and `Open`, are not part of this model. They reassign fields or delegate to the 9P library. `Read` and `Stat` are modelled only as far as choosing the entry or error: `t.Respond`, `ninep.ReadDir` and `ReadBuf` are not.
- namespace.go declares `File` and `NopFile` a second time (namespace.go:44-60), with the same meaning as files.go. The model has one copy.
- Files.Read: a FuncFile's function is a pure Dafny function. The model does not capture a Go function returning different data on each call, such as the random reading in the tests.
- Pump.PacketPump.Iterate: the radio's MTU is a constructor parameter. Its value lives in the cyw43439 driver, which is not part of this model. `PollOne` errors are only logged, so the model takes just the packet flag.
- Concurrency is left out: the pump goroutine running beside the resolvers, and the start-up race in `NewStatus`, where the goroutine's `Store(StatOK)` can overwrite an early `Set`. The atomics become plain fields.
- All `time.Sleep` calls are counted as waits, not timed, where the properties need them. Otherwise they are dropped: the settle sleeps after `BeginResolve` and `StartResolve`, the 2 s start-up pause in `SetupListener`, and the 5 s pause between display rounds. Logging, the LED and `GPIOSet` are left out too.
- Status.Status.Trap: the sleep of duration `t` after the decision is not modelled.
- device_host.go, device_linux.go, device.go and the example program are not part of this model.
- The DHCP, ARP and DNS wire protocols (RFC 2131, RFC 826, RFC 1035), `dns.NewName` and `netip.ParseAddr` are oracles. The DNS filter looks only at each answer's data length, as the code does. It does not check the record type.
- Bringup.SetupWithDHCP: the hostname, transaction id, port counts and credentials passed to the library are not modelled; only the stages and their outcomes are. The DNS server, gateway and lease values read after binding are only logged, so they are left out.
- Status.Set: `int32(flag)` is modelled by ToInt32. Codes outside 0..13 are accepted, as in the source.

## Findings

| source | as written | input that shows it | evidently intended | confidence | as-written member | corrected member |
|---|---|---|---|---|---|---|
| namespace.go:171, namespace.go:181 | The parent of `path` is `path[:idx-1]`, one character short | `NewFile("/readme", ...)`, the first call at namespace_test.go:32, panics because idx is 0; "/sensors/temp" gets parent "/sensor" | The parent is `path[:idx]`, or "/" when idx is 0 | high; not executed | Namespaces.ParentAsWritten, Namespaces.ParentAsWrittenDefects, NamespaceTest.TestNamespacePanics | Namespaces.ParentOf, Namespaces.ParentOfSplitsLabels, Namespaces.Namespace.Create |
| namespace.go:155-158 | Get dereferences Walk's nil result before the table check, so the errNoFile branch cannot be reached | `Get("/x")` when the root has no child "x" panics | A missing child reports errNoFile | high; not executed | Namespaces.ResolveAsWritten, Namespaces.MissingChildPanics | Namespaces.ResolveIntended, Namespaces.ResolveCorrects, Namespaces.Namespace.Lookup |
| device_pico2w.go:266-273 | NewResolver reads `dnsaddrs[0]` even when the list is empty | A DHCP lease that names no DNS server: the index panics | Keep the zero address, as SetupWithDHCP does with the same list; lookups then fail with "invalid ip" | medium; not executed | Resolve.DnsServerAsWritten | Resolve.DnsServer, Resolve.DnsServerCorrects, Resolve.NewResolver |
