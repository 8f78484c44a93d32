/** System diagnostics of the assistant's digital suite: rendering a status record for
    speech, the battery description, the top-N process list and process termination.
    psutil, nvidia-smi and `terminate()` are outside the model: their readings and
    outcomes arrive as inputs, and numeric readings arrive already rendered. */
module SystemOps {
  import opened Wrappers
  import opened Strings

  // ---------------------------------------------------------------- status record

  /** The record `get_system_status` builds. Percentages and sizes are pre-rendered. */
  datatype Status = Status(
    cpuPercent: string,
    ramPercent: string,
    ramUsedGb: string,
    ramTotalGb: string,
    battery: Option<string>,
    gpuNote: Option<string>,
    gpuTempC: Option<string>)

  /** What `psutil.sensors_battery()` gave: no battery, a reading, or an exception. */
  datatype BatteryProbe = NoBattery | BatteryReading(percent: string, powerPlugged: bool) | BatteryProbeFailed

  /** What the `nvidia-smi` query gave: a first output line, a non-zero exit or empty
      output, or an exception (missing binary, timeout, anything else). */
  datatype GpuProbe = GpuTemperature(temp: string) | GpuNoReading | GpuProbeFailed

  const NoBatteryText := "No battery (desktop)"
  const UnknownBatteryText := "Unknown"
  const PluggedSuffix := " (plugged in)"
  const OnBatterySuffix := " (on battery)"
  /** Written in two pieces so the verifier can see its first characters; the value is
      the single sentence of the source. */
  const GpuUnavailableNote := "GPU temp" + " not available (nvidia-smi not found or unsupported)"

  predicate EndsWith(s: string, suffix: string) {
    |suffix| <= |s| && s[|s| - |suffix|..] == suffix
  }

  /** The battery field of the status record. */
  function BatteryString(p: BatteryProbe): (r: string)
    ensures p.NoBattery? ==> r == NoBatteryText
    ensures p.BatteryProbeFailed? ==> r == UnknownBatteryText
    ensures p.BatteryReading? ==>
      r == p.percent + "%" + (if p.powerPlugged then PluggedSuffix else OnBatterySuffix)
    ensures r != ""
  {
    match p
    case NoBattery => NoBatteryText
    case BatteryReading(pct, plugged) =>
      var s := pct + "%";
      if plugged then s + PluggedSuffix else s + OnBatterySuffix
    case BatteryProbeFailed => UnknownBatteryText
  }

  /** The battery text reveals the power state: it ends in " (plugged in)" exactly when
      a battery was read while on mains power. */
  lemma BatteryPluggedIff(p: BatteryProbe)
    ensures EndsWith(BatteryString(p), PluggedSuffix) <==> p.BatteryReading? && p.powerPlugged
  {
    var r := BatteryString(p);
    match p
    case NoBattery =>
      assert r[|r| - |PluggedSuffix|..][2] != PluggedSuffix[2];
    case BatteryProbeFailed =>
    case BatteryReading(pct, plugged) =>
      var suffix := if plugged then PluggedSuffix else OnBatterySuffix;
      assert r[|r| - |PluggedSuffix|..] == suffix;
  }

  /** The GPU note of the status record (`None` when nvidia-smi answered nothing). Both
      notes the measurement can write mention "temp", so a written note is always spoken. */
  function GpuNote(g: GpuProbe): (r: Option<string>)
    ensures r.None? <==> g.GpuNoReading?
    ensures r.Some? ==> GpuSpoken(r)
  {
    match g
    case GpuTemperature(t) =>
      TempNoteSpoken("GPU temp: " + t + "°C");
      Some("GPU temp: " + t + "°C")
    case GpuNoReading => None
    case GpuProbeFailed =>
      UnavailableNoteSpoken();
      Some(GpuUnavailableNote)
  }

  /** `get_system_status` with every measurement supplied by the caller. */
  function GetSystemStatus(cpuPercent: string, ramPercent: string, ramUsedGb: string, ramTotalGb: string,
                           battery: BatteryProbe, gpu: GpuProbe): (r: Status)
    ensures r.cpuPercent == cpuPercent && r.ramPercent == ramPercent
    ensures r.ramUsedGb == ramUsedGb && r.ramTotalGb == ramTotalGb
    ensures r.battery == Some(BatteryString(battery))
    ensures r.gpuNote.Some? <==> !gpu.GpuNoReading?
    ensures r.gpuTempC.Some? <==> gpu.GpuTemperature?
    ensures gpu.GpuTemperature? ==>
      r.gpuNote == Some("GPU temp: " + gpu.temp + "°C") && r.gpuTempC == Some(gpu.temp)
    ensures gpu.GpuProbeFailed? ==> r.gpuNote == Some(GpuUnavailableNote)
  {
    Status(cpuPercent, ramPercent, ramUsedGb, ramTotalGb, Some(BatteryString(battery)), GpuNote(gpu),
           if gpu.GpuTemperature? then Some(gpu.temp) else None)
  }

  // ---------------------------------------------------------------- speech

  function CpuPart(s: Status): string {
    "CPU at " + s.cpuPercent + "%"
  }

  function RamPart(s: Status): string {
    "RAM at " + s.ramPercent + "% (" + s.ramUsedGb + " of " + s.ramTotalGb + " GB used)"
  }

  /** The GPU note is spoken when it is truthy and mentions "temp" in any letter case. */
  predicate GpuSpoken(note: Option<string>) {
    Truthy(note) && Contains(Lower(note.value), "temp")
  }

  /** The sentence parts of `format_system_status_for_speech`, in order: CPU, RAM, then
      the battery (only if truthy), then the GPU note (only if spoken). */
  function StatusParts(s: Status): (r: seq<string>)
    ensures |r| == 2 + (if Truthy(s.battery) then 1 else 0) + (if GpuSpoken(s.gpuNote) then 1 else 0)
    ensures r[0] == CpuPart(s) && r[1] == RamPart(s)
    ensures Truthy(s.battery) ==> r[2] == "Battery: " + s.battery.value
    ensures GpuSpoken(s.gpuNote) ==> r[|r| - 1] == s.gpuNote.value
  {
    [CpuPart(s), RamPart(s)]
    + (if Truthy(s.battery) then ["Battery: " + s.battery.value] else [])
    + (if GpuSpoken(s.gpuNote) then [s.gpuNote.value] else [])
  }

  /** `format_system_status_for_speech`: the parts joined by ". ". Whatever else is
      present, the sentence opens with the CPU part and then the RAM part. */
  function FormatStatus(s: Status): (r: string)
    ensures r == Join(StatusParts(s), ". ")
    ensures IsPrefix(CpuPart(s) + ". " + RamPart(s), r)
  {
    var parts := StatusParts(s);
    assert parts == [CpuPart(s)] + parts[1..];
    assert Join(parts, ". ") == CpuPart(s) + ". " + Join(parts[1..], ". ");
    Join(parts, ". ")
  }

  lemma TempNoteSpoken(note: string)
    requires |note| >= 8 && note[4] == 't' && note[5] == 'e' && note[6] == 'm' && note[7] == 'p'
    ensures GpuSpoken(Some(note))
  {
    var l := Lower(note);
    assert l[4..8] == "temp" by {
      forall k | 4 <= k < 8 ensures l[k] == note[k] {
        assert LowerChar(note[k]) == note[k];
      }
    }
    ContainsAt(l, "temp", 4);
  }

  /** The sentence speaks the battery text whenever it is truthy, and the GPU note
      whenever it mentions "temp". */
  lemma StatusSentenceMentions(s: Status)
    ensures Truthy(s.battery) ==> Contains(FormatStatus(s), "Battery: " + s.battery.value)
    ensures GpuSpoken(s.gpuNote) ==> Contains(FormatStatus(s), s.gpuNote.value)
  {
    var parts := StatusParts(s);
    if Truthy(s.battery) {
      JoinContainsPart(parts, ". ", 2);
    }
    if GpuSpoken(s.gpuNote) {
      JoinContainsPart(parts, ". ", |parts| - 1);
    }
  }

  /** For a status measured by `get_system_status`, the battery part is always spoken
      (the battery field is never empty), and the GPU note is spoken exactly when
      nvidia-smi produced output or could not be run. */
  lemma MeasuredStatusSpeech(cpuPercent: string, ramPercent: string, ramUsedGb: string, ramTotalGb: string,
                             battery: BatteryProbe, gpu: GpuProbe)
    ensures var st := GetSystemStatus(cpuPercent, ramPercent, ramUsedGb, ramTotalGb, battery, gpu);
      && |StatusParts(st)| == (if gpu.GpuNoReading? then 3 else 4)
      && StatusParts(st)[2] == "Battery: " + BatteryString(battery)
  {
    match gpu
    case GpuTemperature(t) =>
      var note := "GPU temp: " + t + "°C";
      TempNoteSpoken(note);
    case GpuNoReading =>
    case GpuProbeFailed =>
      UnavailableNoteSpoken();
  }

  /** The not-available note opens with "GPU temp", so it passes the filter. */
  lemma UnavailableNoteSpoken()
    ensures GpuSpoken(Some(GpuUnavailableNote))
  {
    TempNoteSpoken(GpuUnavailableNote);
  }

  // ---------------------------------------------------------------- top processes

  /** One `psutil.process_iter` step for `list_top_processes`: the info and CPU sample,
      or a process that raised NoSuchProcess / AccessDenied. CPU is in tenths of a
      percent, so `cpu_percent` rounded to one decimal is an integer here. */
  datatype ProcSample = Sampled(pid: nat, name: Option<string>, cpuTenths: Option<int>) | Vanished

  /** An entry of the returned list. */
  datatype ProcEntry = ProcEntry(pid: nat, name: string, cpuTenths: int)

  /** `pinfo.get("name") or "unknown"`. */
  function EntryName(name: Option<string>): (r: string)
    ensures r != ""
    ensures Truthy(name) ==> r == name.value
    ensures !Truthy(name) ==> r == "unknown"
  {
    if Truthy(name) then name.value else "unknown"
  }

  /** The collection loop: keeps the samples with a positive CPU reading, in order. */
  function Collect(samples: seq<ProcSample>): (r: seq<ProcEntry>)
    ensures |r| <= |samples|
    ensures forall k :: 0 <= k < |r| ==> r[k].cpuTenths > 0 && r[k].name != ""
    decreases |samples|
  {
    if |samples| == 0 then []
    else
      var rest := Collect(samples[1..]);
      match samples[0]
      case Sampled(pid, name, Some(cpu)) =>
        if cpu > 0 then [ProcEntry(pid, EntryName(name), cpu)] + rest else rest
      case _ => rest
  }

  /** What one sample contributes: its entry when it has a positive CPU reading, nothing
      when the process vanished or reported no or zero CPU. */
  lemma CollectOne(x: ProcSample)
    ensures Collect([x]) ==
      if x.Sampled? && x.cpuTenths.Some? && x.cpuTenths.value > 0
      then [ProcEntry(x.pid, EntryName(x.name), x.cpuTenths.value)] else []
  {
    assert [x][1..] == [];
  }

  /** The loop keeps sample order: collecting a concatenation collects each part in turn. */
  lemma {:induction false} CollectAppend(a: seq<ProcSample>, b: seq<ProcSample>)
    ensures Collect(a + b) == Collect(a) + Collect(b)
    decreases |a|
  {
    if |a| == 0 {
      assert a + b == b;
    } else {
      CollectAppend(a[1..], b);
      assert (a + b)[1..] == a[1..] + b;
      assert (a + b)[0] == a[0];
      var h := Collect([a[0]]);
      CollectOne(a[0]);
      assert [a[0]][1..] == [];
      calc {
        Collect(a + b);
        h + Collect(a[1..] + b);
        h + (Collect(a[1..]) + Collect(b));
        (h + Collect(a[1..])) + Collect(b);
      }
    }
  }

  predicate SortedDesc(s: seq<ProcEntry>) {
    forall i, j :: 0 <= i < j < |s| ==> s[i].cpuTenths >= s[j].cpuTenths
  }

  /** The entries of `s` whose CPU reading is `k`, in their order in `s`. */
  function WithCpu(s: seq<ProcEntry>, k: int): seq<ProcEntry> {
    if |s| == 0 then []
    else (if s[0].cpuTenths == k then [s[0]] else []) + WithCpu(s[1..], k)
  }

  /** Inserts `x` ahead of every entry it does not fall below. */
  function InsertDesc(x: ProcEntry, t: seq<ProcEntry>): (r: seq<ProcEntry>)
    requires SortedDesc(t)
    ensures SortedDesc(r)
    ensures multiset(r) == multiset(t) + multiset{x}
    ensures r[0] == x || (|t| > 0 && r[0] == t[0])
    decreases |t|
  {
    if |t| == 0 || x.cpuTenths >= t[0].cpuTenths then [x] + t
    else
      var rest := InsertDesc(x, t[1..]);
      assert forall j :: 0 <= j < |rest| ==> t[0].cpuTenths >= rest[j].cpuTenths by {
        assert t[0].cpuTenths >= rest[0].cpuTenths;
      }
      assert t == [t[0]] + t[1..];
      [t[0]] + rest
  }

  /** Python's `sort(key=cpu_percent, reverse=True)`: non-increasing by CPU and a
      permutation of its input; `SortDescStable` adds that ties keep their order. */
  function SortDesc(s: seq<ProcEntry>): (r: seq<ProcEntry>)
    ensures SortedDesc(r)
    ensures multiset(r) == multiset(s)
    decreases |s|
  {
    if |s| == 0 then []
    else
      assert s == [s[0]] + s[1..];
      InsertDesc(s[0], SortDesc(s[1..]))
  }

  lemma WithCpuCons(y: ProcEntry, t: seq<ProcEntry>, k: int)
    ensures WithCpu([y] + t, k) == (if y.cpuTenths == k then [y] else []) + WithCpu(t, k)
  {
    assert ([y] + t)[1..] == t;
  }

  /** Passing an entry with a different reading does not reorder the entries of
      reading `k`. */
  lemma StableStep(x: ProcEntry, y: ProcEntry, rest: seq<ProcEntry>, t: seq<ProcEntry>, k: int)
    requires x.cpuTenths != y.cpuTenths
    requires WithCpu(rest, k) == WithCpu([x] + t, k)
    ensures WithCpu([y] + rest, k) == WithCpu([x] + ([y] + t), k)
  {
    var hx: seq<ProcEntry> := if x.cpuTenths == k then [x] else [];
    var hy: seq<ProcEntry> := if y.cpuTenths == k then [y] else [];
    var tail := WithCpu(t, k);
    WithCpuCons(y, rest, k);
    WithCpuCons(x, t, k);
    WithCpuCons(x, [y] + t, k);
    WithCpuCons(y, t, k);
    assert WithCpu([y] + rest, k) == hy + (hx + tail);
    assert WithCpu([x] + ([y] + t), k) == hx + (hy + tail);
    if hx == [] {
      assert hx + tail == tail;
      assert hx + (hy + tail) == hy + tail;
    } else {
      assert hy == [];
      assert hy + (hx + tail) == hx + tail;
      assert hy + tail == tail;
    }
  }

  lemma {:induction false} InsertDescStable(x: ProcEntry, t: seq<ProcEntry>, k: int)
    requires SortedDesc(t)
    ensures WithCpu(InsertDesc(x, t), k) == WithCpu([x] + t, k)
    decreases |t|
  {
    if |t| > 0 && x.cpuTenths < t[0].cpuTenths {
      InsertDescStable(x, t[1..], k);
      assert t == [t[0]] + t[1..];
      StableStep(x, t[0], InsertDesc(x, t[1..]), t[1..], k);
    }
  }

  /** The sort is stable: for every CPU value, the entries with that value appear in the
      output in exactly the order they had in the input. */
  lemma {:induction false} SortDescStable(s: seq<ProcEntry>, k: int)
    ensures WithCpu(SortDesc(s), k) == WithCpu(s, k)
    decreases |s|
  {
    if |s| > 0 {
      SortDescStable(s[1..], k);
      InsertDescStable(s[0], SortDesc(s[1..]), k);
      assert ([s[0]] + SortDesc(s[1..]))[1..] == SortDesc(s[1..]);
    }
  }

  /** Python's `s[:n]`; a negative `n` drops `-n` elements from the end. */
  function TakePy<T>(s: seq<T>, n: int): (r: seq<T>)
    ensures |r| <= |s| && r == s[..|r|]
    ensures 0 <= n ==> |r| == if n <= |s| then n else |s|
    ensures n < 0 ==> |r| == if |s| + n >= 0 then |s| + n else 0
  {
    if n >= 0 then (if n <= |s| then s[..n] else s)
    else if |s| + n >= 0 then s[..|s| + n]
    else []
  }

  /** No entry of `rest` is busier than any entry of `kept`. */
  predicate Dominates(kept: seq<ProcEntry>, rest: seq<ProcEntry>) {
    forall i, j :: 0 <= i < |kept| && 0 <= j < |rest| ==> rest[j].cpuTenths <= kept[i].cpuTenths
  }

  /** In a non-increasingly sorted list, nothing after a prefix is busier than anything
      in the prefix. */
  lemma SortedPrefixDominates(sorted: seq<ProcEntry>, m: nat)
    requires SortedDesc(sorted) && m <= |sorted|
    ensures Dominates(sorted[..m], sorted[m..])
  {
    forall i, j | 0 <= i < m && 0 <= j < |sorted| - m
      ensures sorted[m..][j].cpuTenths <= sorted[..m][i].cpuTenths
    {
      assert sorted[m..][j] == sorted[m + j] && sorted[..m][i] == sorted[i];
    }
  }

  /** The collected entries in stable, non-increasing CPU order. */
  function Ranked(samples: seq<ProcSample>): seq<ProcEntry> {
    SortDesc(Collect(samples))
  }

  /** `list_top_processes(n)`: the busiest processes first. The result is a prefix of
      the ranked entries, at most `n` long (for a negative `n`, all but the last `-n`),
      and no collected entry left out is busier than any entry kept. */
  function TopProcesses(samples: seq<ProcSample>, n: int): (r: seq<ProcEntry>)
    ensures |r| <= |Ranked(samples)| && r == Ranked(samples)[..|r|]
    ensures 0 <= n ==> |r| == if n <= |Ranked(samples)| then n else |Ranked(samples)|
    ensures n < 0 ==> |r| == if |Ranked(samples)| + n >= 0 then |Ranked(samples)| + n else 0
    ensures Dominates(r, Ranked(samples)[|r|..])
    ensures 0 <= n ==> |r| <= n
    ensures SortedDesc(r)
    ensures forall k :: 0 <= k < |r| ==> r[k].cpuTenths > 0 && r[k].name != ""
  {
    var sorted := Ranked(samples);
    var r := TakePy(sorted, n);
    SortedPrefixDominates(sorted, |r|);
    SortedEntriesValid(samples);
    assert forall k :: 0 <= k < |r| ==> r[k] == sorted[k];
    r
  }

  /** `list_top_processes()` with its default of ten entries. */
  function TopProcessesDefault(samples: seq<ProcSample>): (r: seq<ProcEntry>)
    ensures |r| == if |Ranked(samples)| < 10 then |Ranked(samples)| else 10
    ensures r == Ranked(samples)[..|r|]
  {
    TopProcesses(samples, 10)
  }

  /** Ranking keeps the collection filter's guarantees on every entry. */
  lemma SortedEntriesValid(samples: seq<ProcSample>)
    ensures forall k :: 0 <= k < |Ranked(samples)| ==> Ranked(samples)[k].cpuTenths > 0 && Ranked(samples)[k].name != ""
  {
    var collected := Collect(samples);
    var sorted := SortDesc(collected);
    forall k | 0 <= k < |sorted| ensures sorted[k].cpuTenths > 0 && sorted[k].name != "" {
      assert sorted[k] in multiset(sorted);
      assert sorted[k] in collected;
      var idx :| 0 <= idx < |collected| && collected[idx] == sorted[k];
    }
  }

  // ---------------------------------------------------------------- killing

  /** One `psutil.process_iter` step for `kill_process_by_name`: the pid and name info,
      and whether `Process(pid).terminate()` went through (false when it raised
      NoSuchProcess or AccessDenied). */
  datatype KillCandidate = KillCandidate(pid: nat, name: Option<string>, terminates: bool)

  /** A process is targeted when the lower-cased substring occurs in its lower-cased
      name, a missing name counting as "". */
  predicate Targets(sub: string, name: Option<string>)
    ensures Targets(sub, name) <==> exists i :: OccursAt(Lower(name.GetOr("")), Lower(sub), i)
  {
    ContainsIff(Lower(name.GetOr("")), Lower(sub));
    Contains(Lower(name.GetOr("")), Lower(sub))
  }

  predicate Killed(sub: string, c: KillCandidate) {
    Targets(sub, c.name) && c.terminates
  }

  /** `f"{p.info['name']} (PID {p.info['pid']})"`; a missing name prints as "None". */
  function Label(c: KillCandidate): string {
    c.name.GetOr("None") + " (PID " + NatToString(c.pid) + ")"
  }

  /** No process of `cs` was both targeted and terminated. */
  predicate NoneKilled(sub: string, cs: seq<KillCandidate>) {
    forall i :: 0 <= i < |cs| ==> !Killed(sub, cs[i])
  }

  /** The `killed` list: labels of the targeted processes that were terminated, in
      iteration order. */
  function KilledLabels(sub: string, cs: seq<KillCandidate>): (r: seq<string>)
    ensures |r| <= |cs|
    decreases |cs|
  {
    if |cs| == 0 then []
    else (if Killed(sub, cs[0]) then [Label(cs[0])] else []) + KilledLabels(sub, cs[1..])
  }

  /** The list is empty exactly when no process was both targeted and terminated. */
  lemma {:induction false} KilledLabelsEmpty(sub: string, cs: seq<KillCandidate>)
    ensures KilledLabels(sub, cs) == [] <==> NoneKilled(sub, cs)
    decreases |cs|
  {
    if |cs| > 0 {
      KilledLabelsEmpty(sub, cs[1..]);
      assert forall i :: 1 <= i < |cs| ==> cs[i] == cs[1..][i - 1];
    }
  }

  /** Only terminated processes are listed: every label is that of a targeted process
      whose termination went through, so skipped processes never appear. */
  lemma {:induction false} KilledLabelsSound(sub: string, cs: seq<KillCandidate>, k: nat)
    requires k < |KilledLabels(sub, cs)|
    ensures exists i :: 0 <= i < |cs| && Killed(sub, cs[i]) && KilledLabels(sub, cs)[k] == Label(cs[i])
    decreases |cs|
  {
    if Killed(sub, cs[0]) && k == 0 {
      assert Killed(sub, cs[0]) && KilledLabels(sub, cs)[k] == Label(cs[0]);
    } else {
      var k' := if Killed(sub, cs[0]) then k - 1 else k;
      KilledLabelsSound(sub, cs[1..], k');
      var i :| 0 <= i < |cs[1..]| && Killed(sub, cs[1..][i]) && KilledLabels(sub, cs[1..])[k'] == Label(cs[1..][i]);
      assert cs[1..][i] == cs[i + 1];
    }
  }

  /** Iteration order is kept: the labels of a concatenated process list are the labels
      of the first part followed by those of the second. */
  lemma {:induction false} KilledLabelsAppend(sub: string, a: seq<KillCandidate>, b: seq<KillCandidate>)
    ensures KilledLabels(sub, a + b) == KilledLabels(sub, a) + KilledLabels(sub, b)
    decreases |a|
  {
    if |a| == 0 {
      assert a + b == b;
    } else {
      var h := if Killed(sub, a[0]) then [Label(a[0])] else [];
      KilledLabelsAppend(sub, a[1..], b);
      assert a + b == [a[0]] + (a[1..] + b);
      KilledLabelsCons(sub, a[0], a[1..] + b);
      assert a == [a[0]] + a[1..];
      KilledLabelsCons(sub, a[0], a[1..]);
      calc {
        KilledLabels(sub, a + b);
        h + KilledLabels(sub, a[1..] + b);
        h + (KilledLabels(sub, a[1..]) + KilledLabels(sub, b));
        (h + KilledLabels(sub, a[1..])) + KilledLabels(sub, b);
        KilledLabels(sub, a) + KilledLabels(sub, b);
      }
    }
  }

  lemma KilledLabelsCons(sub: string, c: KillCandidate, cs: seq<KillCandidate>)
    ensures KilledLabels(sub, [c] + cs) == (if Killed(sub, c) then [Label(c)] else []) + KilledLabels(sub, cs)
  {
    assert ([c] + cs)[1..] == cs;
  }

  function NoMatchMessage(sub: string): string {
    "No process matching '" + sub + "' found or could not terminate."
  }

  /** `kill_process_by_name`: success exactly when some targeted process was
      terminated, with the terminated ones listed; otherwise the no-match message. */
  function KillByName(sub: string, cs: seq<KillCandidate>): (r: (bool, string))
    ensures r.0 <==> exists i :: 0 <= i < |cs| && Killed(sub, cs[i])
    ensures r.0 ==> r.1 == "Terminated: " + Join(KilledLabels(sub, cs), ", ")
    ensures !r.0 ==> r.1 == NoMatchMessage(sub)
  {
    KilledLabelsEmpty(sub, cs);
    var killed := KilledLabels(sub, cs);
    if killed != [] then (true, "Terminated: " + Join(killed, ", "))
    else (false, NoMatchMessage(sub))
  }

  /** The empty substring targets every process, named or not. */
  lemma EmptySubstringTargetsAll(name: Option<string>)
    ensures Targets("", name)
  {
    assert Lower("") == "";
    assert IsPrefix("", Lower(name.GetOr("")));
  }

  /** Matching ignores letter case in the substring. */
  lemma TargetsIgnoresCase(sub: string, name: Option<string>)
    ensures Targets(Lower(sub), name) <==> Targets(sub, name)
  {
    assert Lower(Lower(sub)) == Lower(sub);
  }

  /** What `kill_process_by_pid` ran into: the whole call sequence returned the name,
      or `Process`, `terminate` or `name` raised NoSuchProcess or AccessDenied. */
  datatype PidOutcome = PidTerminated(name: string) | PidNoSuchProcess | PidAccessDenied

  /** `kill_process_by_pid`. */
  function KillByPid(pid: nat, o: PidOutcome): (r: (bool, string))
    ensures r.0 <==> o.PidTerminated?
    ensures o.PidTerminated? ==> r.1 == "Terminated process " + NatToString(pid) + " (" + o.name + ")."
    ensures o.PidNoSuchProcess? ==> r.1 == "Process " + NatToString(pid) + " does not exist."
    ensures o.PidAccessDenied? ==> r.1 == "Access denied to terminate process " + NatToString(pid) + "."
  {
    match o
    case PidTerminated(name) => (true, "Terminated process " + NatToString(pid) + " (" + name + ").")
    case PidNoSuchProcess => (false, "Process " + NatToString(pid) + " does not exist.")
    case PidAccessDenied => (false, "Access denied to terminate process " + NatToString(pid) + ".")
  }
  /** Every reply of `kill_process_by_pid` names the pid it was given, in decimal. */
  lemma KillByPidMentionsPid(pid: nat, o: PidOutcome)
    ensures Contains(KillByPid(pid, o).1, NatToString(pid))
  {
    var d := NatToString(pid);
    match o
    case PidTerminated(name) =>
      var tail := " (" + name + ").";
      assert KillByPid(pid, o).1 == "Terminated process " + d + tail;
      MentionsMiddle("Terminated process ", d, tail);
    case PidNoSuchProcess =>
      MentionsMiddle("Process ", d, " does not exist.");
    case PidAccessDenied =>
      MentionsMiddle("Access denied to terminate process ", d, ".");
  }

  lemma MentionsMiddle(lead: string, d: string, tail: string)
    ensures Contains(lead + d + tail, d)
  {
    var t := lead + d + tail;
    assert t[|lead|..|lead| + |d|] == d;
    ContainsAt(t, d, |lead|);
  }

}
