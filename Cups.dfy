/**
 * `CupsPrinter`: the destinations CUPS knows, each with its option map, and the four-phase protocol that
 * submits one job to a destination and cancels it again if any phase after its creation fails.
 */
module Cups {
  import opened Expected
  import opened Native
  import opened CupsError
  import KeyOrder

  /** `CupsPrinter::EFormat`: the document formats a job can carry. */
  datatype Format = Text | Pdf | PostScript

  /** The CUPS format identifier each format selects (`CUPS_FORMAT_TEXT`, `CUPS_FORMAT_PDF`,
      `CUPS_FORMAT_POSTSCRIPT`). Every format selects one, so the switch never falls through. */
  function FormatString(f: Format): (s: string)
    ensures s == "text/plain" || s == "application/pdf" || s == "application/postscript"
  {
    match f
    case Text => "text/plain"
    case Pdf => "application/pdf"
    case PostScript => "application/postscript"
  }

  /** Distinct formats select distinct identifiers, each of them the MIME type of the format. */
  lemma FormatStringsDistinct(f: Format, g: Format)
    ensures FormatString(f) == FormatString(g) ==> f == g
    ensures FormatString(Text) == "text/plain" && FormatString(Pdf) == "application/pdf"
    ensures FormatString(PostScript) == "application/postscript"
  {
  }

  /** The instance string of a destination: a null instance pointer becomes the empty string. */
  function InstanceOrEmpty(instance: Option<string>): (s: string)
    ensures instance.Some? ==> s == instance.value
    ensures instance.None? ==> s == ""
  {
    match instance
    case None => ""
    case Some(s) => s
  }

  /** The option names that occur in `opts`. */
  function Names(opts: seq<NativeOption>): set<string>
  {
    set i | 0 <= i < |opts| :: opts[i].name
  }

  lemma NamesSnoc(opts: seq<NativeOption>, o: NativeOption)
    ensures Names(opts + [o]) == Names(opts) + {o.name}
  {
    var ext := opts + [o];
    assert ext[|opts|] == o;
    forall k | k in Names(opts)
      ensures k in Names(ext)
    {
      var i :| 0 <= i < |opts| && opts[i].name == k;
      assert ext[i] == opts[i];
    }
  }

  /** Position `i` holds the first occurrence of its option name. */
  predicate FirstOccurrence(opts: seq<NativeOption>, i: int)
    requires 0 <= i < |opts|
  {
    forall j :: 0 <= j < i ==> opts[j].name != opts[i].name
  }

  /** `m` is the map that emplacing `opts` one by one builds: it has exactly the names of `opts` as keys,
      and a name that occurs more than once keeps the value of its first occurrence. */
  ghost predicate FirstWins(opts: seq<NativeOption>, m: map<string, string>)
  {
    && m.Keys == Names(opts)
    && forall i :: 0 <= i < |opts| && FirstOccurrence(opts, i) ==> opts[i].name in m && m[opts[i].name] == opts[i].value
  }

  /** Emplacing one more option: the map gains its name only if the name is new. */
  lemma FirstWinsSnoc(opts: seq<NativeOption>, m: map<string, string>, o: NativeOption)
    requires FirstWins(opts, m)
    ensures FirstWins(opts + [o], if o.name in m then m else m[o.name := o.value])
  {
    var ext := opts + [o];
    var m' := if o.name in m then m else m[o.name := o.value];
    NamesSnoc(opts, o);
    forall j | 0 <= j < |ext| && FirstOccurrence(ext, j)
      ensures ext[j].name in m' && m'[ext[j].name] == ext[j].value
    {
      if j < |opts| {
        assert ext[j] == opts[j];
        assert FirstOccurrence(opts, j) by {
          forall l | 0 <= l < j
            ensures opts[l].name != opts[j].name
          {
            assert ext[l] == opts[l];
          }
        }
      } else {
        assert o.name !in Names(opts) by {
          forall l | 0 <= l < |opts|
            ensures opts[l].name != o.name
          {
            assert ext[l] == opts[l];
          }
        }
      }
    }
  }

  /** Before any `emplace`, the empty map is the one the empty option list builds. */
  lemma FirstWinsEmpty()
    ensures FirstWins([], map[])
  {
    assert Names([]) == {};
  }

  /** The inner loop of `GetPrinters`: copies the options of one destination into a map with `emplace`,
      which never overwrites a key already present. */
  method CopyOptions(opts: seq<NativeOption>) returns (m: map<string, string>)
    ensures FirstWins(opts, m)
  {
    m := map[];
    FirstWinsEmpty();
    assert opts[..0] == [];
    for i := 0 to |opts|
      invariant FirstWins(opts[..i], m)
    {
      FirstWinsSnoc(opts[..i], m, opts[i]);
      assert opts[..i + 1] == opts[..i] + [opts[i]];
      m := if opts[i].name in m then m else m[opts[i].name := opts[i].value];
    }
    assert opts[..|opts|] == opts;
  }

  /** Every name of `opts` has a first occurrence. */
  lemma FirstIndex(opts: seq<NativeOption>, k: string) returns (i: int)
    requires k in Names(opts)
    ensures 0 <= i < |opts| && opts[i].name == k && FirstOccurrence(opts, i)
  {
    i :| 0 <= i < |opts| && opts[i].name == k;
    while !FirstOccurrence(opts, i)
      invariant 0 <= i < |opts| && opts[i].name == k
      decreases i
    {
      var later := i;
      i :| 0 <= i < later && opts[i].name == opts[later].name;
    }
  }

  /** `FirstWins` pins the map down: the options of a destination determine its option map. */
  lemma FirstWinsUnique(opts: seq<NativeOption>, m1: map<string, string>, m2: map<string, string>)
    requires FirstWins(opts, m1) && FirstWins(opts, m2)
    ensures m1 == m2
  {
    forall k | k in m1
      ensures m1[k] == m2[k]
    {
      var i := FirstIndex(opts, k);
    }
  }

  /** `opts` lists the entries of `m`, each exactly once, in ascending key order: the order in which
      iterating a `std::map` visits them. */
  ghost predicate InKeyOrder(opts: seq<NativeOption>, m: map<string, string>)
  {
    && Names(opts) == m.Keys
    && (forall i :: 0 <= i < |opts| ==> opts[i].name in m && m[opts[i].name] == opts[i].value)
    && (forall i, j :: 0 <= i < j < |opts| ==> KeyOrder.Less(opts[i].name, opts[j].name))
  }

  /** Midway through the first loop of `print`: `opts` lists, in ascending key order, the entries of `m`
      whose keys are not in `rest`, and every key still in `rest` comes after all of them. */
  ghost predicate ListedBefore(opts: seq<NativeOption>, rest: set<string>, m: map<string, string>)
  {
    && Names(opts) + rest == m.Keys
    && (forall i :: 0 <= i < |opts| ==> opts[i].name in m && m[opts[i].name] == opts[i].value)
    && (forall i, j :: 0 <= i < j < |opts| ==> KeyOrder.Less(opts[i].name, opts[j].name))
    && (forall i, k :: 0 <= i < |opts| && k in rest ==> KeyOrder.Less(opts[i].name, k))
  }

  /** Appending the least remaining key keeps the array in key order. */
  lemma ListedBeforeStep(opts: seq<NativeOption>, rest: set<string>, m: map<string, string>, k: string)
    requires ListedBefore(opts, rest, m)
    requires k in rest && forall x :: x in rest && x != k ==> KeyOrder.Less(k, x)
    ensures ListedBefore(opts + [NativeOption(k, m[k])], rest - {k}, m)
  {
    var opts' := opts + [NativeOption(k, m[k])];
    NamesSnoc(opts, NativeOption(k, m[k]));
    forall i, j | 0 <= i < j < |opts'|
      ensures KeyOrder.Less(opts'[i].name, opts'[j].name)
    {
      assert opts'[i] == opts[i];
    }
    forall i, x | 0 <= i < |opts'| && x in rest - {k}
      ensures KeyOrder.Less(opts'[i].name, x)
    {
      if i < |opts| {
        assert opts'[i] == opts[i];
      }
    }
  }

  /** The first loop of `print`: the option array handed to `cupsCreateJob`, one entry per option, in the
      order the option map is iterated. */
  method OptionArray(m: map<string, string>) returns (opts: seq<NativeOption>)
    ensures InKeyOrder(opts, m)
  {
    opts := [];
    var rest := m.Keys;
    while rest != {}
      invariant ListedBefore(opts, rest, m)
      decreases rest
    {
      ghost var least := KeyOrder.LeastExists(rest);
      var k :| k in rest && forall x :: x in rest && x != k ==> KeyOrder.Less(k, x);
      ListedBeforeStep(opts, rest, m, k);
      opts := opts + [NativeOption(k, m[k])];
      rest := rest - {k};
    }
  }

  /** The first entry of an option array in key order holds the least key of the map. */
  lemma InKeyOrderHead(opts: seq<NativeOption>, m: map<string, string>)
    requires InKeyOrder(opts, m) && opts != []
    ensures opts[0].name in m && opts[0].value == m[opts[0].name]
    ensures forall k :: k in m && k != opts[0].name ==> KeyOrder.Less(opts[0].name, k)
  {
    forall k | k in m && k != opts[0].name
      ensures KeyOrder.Less(opts[0].name, k)
    {
      var i :| 0 <= i < |opts| && opts[i].name == k;
    }
  }

  /** After its first entry, an option array in key order lists the rest of the map. */
  lemma InKeyOrderTail(opts: seq<NativeOption>, m: map<string, string>)
    requires InKeyOrder(opts, m) && opts != []
    ensures InKeyOrder(opts[1..], m - {opts[0].name})
  {
    var head := opts[0].name;
    var tail := opts[1..];
    assert Names(opts) == Names(tail) + {head} by {
      forall k | k in Names(opts)
        ensures k in Names(tail) + {head}
      {
        var i :| 0 <= i < |opts| && opts[i].name == k;
        if i > 0 {
          assert tail[i - 1] == opts[i];
        }
      }
      forall k | k in Names(tail)
        ensures k in Names(opts)
      {
        var i :| 0 <= i < |tail| && tail[i].name == k;
        assert opts[i + 1] == tail[i];
      }
    }
    forall k | k in Names(tail)
      ensures k != head
    {
      var i :| 0 <= i < |tail| && tail[i].name == k;
      assert opts[i + 1] == tail[i];
      KeyOrder.LessIrreflexive(head);
    }
  }

  /** The order of a `std::map` leaves no choice: there is one option array in key order per map. */
  lemma {:induction false} InKeyOrderUnique(a: seq<NativeOption>, b: seq<NativeOption>, m: map<string, string>)
    requires InKeyOrder(a, m) && InKeyOrder(b, m)
    ensures a == b
    decreases |a|
  {
    assert a != [] ==> a[0].name in Names(a);
    assert b != [] ==> b[0].name in Names(b);
    if a != [] && b != [] {
      InKeyOrderHead(a, m);
      InKeyOrderHead(b, m);
      InKeyOrderTail(a, m);
      InKeyOrderTail(b, m);
      var x, y := a[0].name, b[0].name;
      if x != y {
        KeyOrder.LessAsymmetric(x, y);
      }
      InKeyOrderUnique(a[1..], b[1..], m - {x});
      assert a == [a[0]] + a[1..] && b == [b[0]] + b[1..];
    }
  }

  /** Splits a target identifier at its first `/` into name and instance. */
  function SplitName(target: string): (string, string)
  {
    if target == [] then ("", "")
    else if target[0] == '/' then ("", target[1..])
    else
      var (name, instance) := SplitName(target[1..]);
      ([target[0]] + name, instance)
  }

  lemma {:induction false} SplitTarget(name: string, instance: string)
    requires '/' !in name
    ensures SplitName(name) == (name, "")
    ensures SplitName(name + "/" + instance) == (name, instance)
  {
    if name == [] {
      assert name + "/" + instance == ['/'] + instance;
    } else {
      assert name == [name[0]] + name[1..];
      assert (name + "/" + instance)[1..] == name[1..] + "/" + instance;
      SplitTarget(name[1..], instance);
    }
  }

  /** The destinations a `cupsGetDests` reply makes the wrapper read: none unless the count is positive. */
  function Listed(reply: DestsReply): (ds: seq<NativeDest>)
    requires reply.count > 0 ==> |reply.dests| == reply.count
    ensures reply.count >= 0 ==> |ds| == reply.count
    ensures reply.count <= 0 ==> ds == []
  {
    if reply.count > 0 then reply.dests else []
  }

  /** `i` is the first destination flagged default. */
  predicate FirstFlagged(ds: seq<NativeDest>, i: int)
  {
    0 <= i < |ds| && ds[i].isDefault != 0 && forall j :: 0 <= j < i ==> ds[j].isDefault == 0
  }

  /** The four phases of `print`, in order: index 0 creates the job, 1 starts the document, 2 writes the
      data, 3 finishes the document. */
  function ReplyAt(native: JobReplies, k: nat): Reply
    requires k < 4
  {
    [native.create, native.start, native.write, native.finish][k]
  }

  /** Whether phase `k` succeeded, by that phase's own test. */
  predicate Succeeded(native: JobReplies, k: nat)
    requires k < 4
  {
    match k
    case 0 => JobCreated(native.create.status)
    case 1 => DocumentStarted(native.start.status)
    case 2 => DataWritten(native.write.status)
    case _ => DocumentFinished(native.finish.status)
  }

  /** The phase an error of phase `k` is tagged with. */
  function PhaseOf(k: nat): Phase
    requires k < 4
  {
    [CreateJob, StartDocument, WriteData, FinishDocument][k]
  }

  /** How many phases `print` runs: every phase up to and including the first that fails. */
  function PhasesRun(native: JobReplies): (n: nat)
    ensures 1 <= n <= 4
    ensures forall k :: 0 <= k < n - 1 ==> Succeeded(native, k)
    ensures n < 4 ==> !Succeeded(native, n - 1)
  {
    if !JobCreated(native.create.status) then 1
    else if !DocumentStarted(native.start.status) then 2
    else if !DataWritten(native.write.status) then 3
    else 4
  }

  /** All four phases succeed. */
  predicate Submitted(native: JobReplies)
  {
    forall k :: 0 <= k < 4 ==> Succeeded(native, k)
  }

  /** A submission whose phase `k` is the first to fail runs `k + 1` phases and is not submitted. */
  lemma FailsAt(native: JobReplies, k: nat)
    requires k < 4 && !Succeeded(native, k) && forall j :: 0 <= j < k ==> Succeeded(native, j)
    ensures PhasesRun(native) == k + 1 && !Submitted(native)
  {
  }

  /** The four calls of a complete submission, in the order `print` makes them. */
  function ProtocolCalls(dest: string, title: string, opts: seq<NativeOption>, jobId: int, format: string,
                         data: string): seq<NativeCall>
  {
    [ CupsCreateJob(dest, title, opts),
      CupsStartDocument(dest, jobId, "doc", format, true),
      CupsWriteRequestData(data),
      CupsFinishDocument(dest) ]
  }

  /** The calls `print` makes, case by case: the phases up to the first that fails, then, when the job
      was created but not submitted, the cancel its guard issues on the way out. */
  function Trace(dest: string, title: string, opts: seq<NativeOption>, native: JobReplies, format: string,
                 data: string): seq<NativeCall>
  {
    var jobId := native.create.status;
    var create := CupsCreateJob(dest, title, opts);
    var start := CupsStartDocument(dest, jobId, "doc", format, true);
    var write := CupsWriteRequestData(data);
    var finish := CupsFinishDocument(dest);
    var cancel := CupsCancelJob(dest, jobId);
    if !JobCreated(jobId) then [create]
    else if !DocumentStarted(native.start.status) then [create, start, cancel]
    else if !DataWritten(native.write.status) then [create, start, write, cancel]
    else if !DocumentFinished(native.finish.status) then [create, start, write, finish, cancel]
    else [create, start, write, finish]
  }

  /** A log without cancels contributes none. */
  lemma {:induction false} NoCancels(calls: seq<NativeCall>)
    requires forall i :: 0 <= i < |calls| ==> !calls[i].CupsCancelJob?
    ensures Cancels(calls) == []
    decreases |calls|
  {
    if calls != [] {
      NoCancels(calls[..|calls| - 1]);
    }
  }

  /** A submission cancels exactly once when the job was created and a later phase failed, for that job
      on that destination, and never otherwise. */
  lemma TraceCancels(dest: string, title: string, opts: seq<NativeOption>, native: JobReplies, format: string,
                     data: string)
    ensures Cancels(Trace(dest, title, opts, native, format, data)) ==
              if JobCreated(native.create.status) && !Submitted(native)
              then [CupsCancelJob(dest, native.create.status)]
              else []
  {
    var trace := Trace(dest, title, opts, native, format, data);
    var prefix := ProtocolCalls(dest, title, opts, native.create.status, format, data)[..PhasesRun(native)];
    NoCancels(prefix);
    if JobCreated(native.create.status) && !Submitted(native) {
      assert trace == prefix + [trace[|trace| - 1]];
      CancelsSnoc(prefix, trace[|trace| - 1]);
    } else {
      assert trace == prefix;
    }
  }

  /** Later phases are never attempted: the log is the protocol up to the first failing phase, followed
      only by cancels. */
  lemma TraceFollowsProtocol(dest: string, title: string, opts: seq<NativeOption>, native: JobReplies,
                             format: string, data: string)
    ensures var trace := Trace(dest, title, opts, native, format, data);
            trace == ProtocolCalls(dest, title, opts, native.create.status, format, data)[..PhasesRun(native)]
                     + Cancels(trace)
  {
    TraceCancels(dest, title, opts, native, format, data);
  }

  /** What the deleter of the job guard of `print` does when it goes out of scope: it cancels the job it
      still holds, whatever its id. */
  function GuardDeleter(dest: string, held: Option<int>): (calls: seq<NativeCall>)
    ensures |calls| <= 1
    ensures calls != [] <==> held.Some?
    ensures forall c :: c in calls ==> c == CupsCancelJob(dest, held.value)
  {
    match held
    case None => []
    case Some(jobId) => [CupsCancelJob(dest, jobId)]
  }

  class CupsPrinter {
    const name: string
    const instance: string
    const isDefault: bool
    var options: map<string, string>

    constructor (name: string, instance: string, isDefault: bool, options: map<string, string>)
      ensures GetName() == name && GetInstance() == instance && IsDefault() == isDefault
      ensures GetOptions() == options
    {
      this.name := name;
      this.instance := instance;
      this.isDefault := isDefault;
      this.options := options;
    }

    function GetName(): string { name }
    function GetInstance(): string { instance }
    function IsDefault(): bool { isDefault }
    function GetOptions(): map<string, string> reads this { options }

    /** This printer is the copy `GetPrinters` makes of the native destination `d`. */
    ghost predicate Copies(d: NativeDest)
      reads this
    {
      && name == d.name
      && instance == InstanceOrEmpty(d.instance)
      && isDefault == (d.isDefault != 0)
      && FirstWins(d.options, options)
    }

    /** The identifier jobs are sent to: the name alone, or `name/instance` when there is an instance. */
    function BuildName(): (target: string)
      ensures instance == [] ==> target == name
      ensures instance != [] ==> |target| == |name| + 1 + |instance| && target[..|name|] == name
                                 && target[|name|] == '/' && target[|name| + 1..] == instance
    {
      if instance == [] then name else name + "/" + instance
    }

    /** `insert_or_assign`: the key now maps to the value, whether or not it was present, and no other
        entry changes. */
    method SetOption(key: string, value: string)
      modifies this
      ensures GetOptions() == old(GetOptions())[key := value]
      ensures key in GetOptions() && GetOptions()[key] == value
      ensures forall k :: k != key ==> (k in GetOptions() <==> k in old(GetOptions()))
      ensures forall k :: k != key && k in GetOptions() ==> GetOptions()[k] == old(GetOptions())[k]
    {
      options := options[key := value];
    }

    /** `std::ranges::find_if` for the first printer flagged default. */
    static function FindDefault(ps: seq<CupsPrinter>): (r: Option<nat>)
      ensures r.Some? ==> r.value < |ps| && ps[r.value].IsDefault()
                          && forall j :: 0 <= j < r.value ==> !ps[j].IsDefault()
      ensures r.None? ==> forall j :: 0 <= j < |ps| ==> !ps[j].IsDefault()
      decreases |ps|
    {
      if ps == [] then None
      else if ps[0].IsDefault() then Some(0)
      else
        match FindDefault(ps[1..])
        case None => None
        case Some(i) => Some(i + 1)
    }

    /** Lists every destination, in the order the library enumerates them. A negative count is a
        `GetDests` error; a zero count is an empty list. The ghost `frees` counts the calls to
        `cupsFreeDests`: the array is released exactly once when it was handed over. */
    static method GetPrinters(reply: DestsReply) returns (r: Expected<seq<CupsPrinter>, CupsError>, ghost frees: nat)
      requires reply.count > 0 ==> |reply.dests| == reply.count
      ensures reply.count < 0 ==> r == Unexpected(MakeError(GetDests, reply.lastError))
      ensures reply.count >= 0 ==> r.Value? && |r.value| == reply.count
      ensures r.Value? ==> forall i :: 0 <= i < |r.value| ==> fresh(r.value[i]) && r.value[i].Copies(reply.dests[i])
      ensures r.Value? ==> forall i, j :: 0 <= i < j < |r.value| ==> r.value[i] != r.value[j]
      ensures frees == if reply.count > 0 then 1 else 0
    {
      if reply.count < 0 {
        r, frees := Unexpected(MakeError(GetDests, reply.lastError)), 0;
        return;
      }
      if reply.count == 0 {
        r, frees := Value([]), 0;
        return;
      }
      var printers: seq<CupsPrinter> := [];
      for i := 0 to reply.count
        invariant |printers| == i
        invariant forall k :: 0 <= k < i ==> fresh(printers[k]) && printers[k].Copies(reply.dests[k])
        invariant forall k, l :: 0 <= k < l < i ==> printers[k] != printers[l]
      {
        var d := reply.dests[i];
        var options := CopyOptions(d.options);
        var printer := new CupsPrinter(d.name, InstanceOrEmpty(d.instance), d.isDefault != 0, options);
        printers := printers + [printer];
      }
      r, frees := Value(printers), 1;
    }

    /** The first destination flagged default. An enumeration error is passed on unchanged; no flagged
        destination is a `NoDefaultPrinter` error, which does not depend on the library's last error. */
    static method GetDefaultPrinter(reply: DestsReply) returns (r: Expected<CupsPrinter, CupsError>)
      requires reply.count > 0 ==> |reply.dests| == reply.count
      ensures reply.count < 0 ==> r == Unexpected(MakeError(GetDests, reply.lastError))
      ensures reply.count >= 0 ==>
                (r.Value? <==> exists i :: 0 <= i < |Listed(reply)| && Listed(reply)[i].isDefault != 0)
      ensures r.Value? ==> exists i :: FirstFlagged(Listed(reply), i) && r.value.Copies(Listed(reply)[i])
      ensures r.Value? ==> fresh(r.value)
      ensures reply.count >= 0 && r.Unexpected? ==>
                r.error.phase == NoDefaultPrinter && r.error.status == IppStatusOk && r.error.message == NoDefaultMessage
    {
      var printers, frees := GetPrinters(reply);
      if printers.Unexpected? {
        return Unexpected(printers.error);
      }
      var ps := printers.value;
      var found := FindDefault(ps);
      if found.None? {
        r := Unexpected(MakeError(NoDefaultPrinter, reply.lastError));
        forall i | 0 <= i < |Listed(reply)|
          ensures Listed(reply)[i].isDefault == 0
        {
          assert ps[i].Copies(reply.dests[i]);
        }
        return;
      }
      var i := found.value;
      assert FirstFlagged(Listed(reply), i) by {
        forall j | 0 <= j < i
          ensures Listed(reply)[j].isDefault == 0
        {
          assert ps[j].Copies(reply.dests[j]);
        }
      }
      r := Value(ps[i]);
    }

    /** Submits one job: creates it, starts a single document, writes the data and finishes the document,
        stopping at the first phase that fails and reporting that phase with the last error it left. From
        the moment the job exists, a failure cancels it exactly once; a complete submission cancels
        nothing. `calls` is the log of library calls made. */
    method Print(jobName: string, data: string, format: Format, native: JobReplies)
      returns (r: Expected<(), CupsError>, ghost calls: seq<NativeCall>)
      ensures r.Value? <==> Submitted(native)
      ensures r.Unexpected? ==>
                var k := PhasesRun(native) - 1;
                !Succeeded(native, k) && r.error == MakeError(PhaseOf(k), ReplyAt(native, k).lastError)
      ensures |calls| > 0 && calls[0].CupsCreateJob? && InKeyOrder(calls[0].options, GetOptions())
      ensures calls == Trace(BuildName(), jobName, calls[0].options, native, FormatString(format), data)
      ensures Cancels(calls) ==
                if JobCreated(native.create.status) && r.Unexpected?
                then [CupsCancelJob(BuildName(), native.create.status)]
                else []
    {
      var dest := BuildName();
      var opts := OptionArray(options);
      var jobId := native.create.status;
      TraceCancels(dest, jobName, opts, native, FormatString(format), data);
      calls := [CupsCreateJob(dest, jobName, opts)];
      if jobId < 0 {
        r := Unexpected(MakeError(CreateJob, native.create.lastError));
        FailsAt(native, 0);
        return;
      }
      var formatString := FormatString(format);
      // the unique_ptr that holds the job id until it is released
      ghost var guard: Option<int> := Some(jobId);

      calls := calls + [CupsStartDocument(dest, jobId, "doc", formatString, true)];
      if !DocumentStarted(native.start.status) {
        r := Unexpected(MakeError(StartDocument, native.start.lastError));
        FailsAt(native, 1);
        calls := calls + GuardDeleter(dest, guard);
        return;
      }

      calls := calls + [CupsWriteRequestData(data)];
      if !DataWritten(native.write.status) {
        r := Unexpected(MakeError(WriteData, native.write.lastError));
        FailsAt(native, 2);
        calls := calls + GuardDeleter(dest, guard);
        return;
      }

      calls := calls + [CupsFinishDocument(dest)];
      if !DocumentFinished(native.finish.status) {
        r := Unexpected(MakeError(FinishDocument, native.finish.lastError));
        FailsAt(native, 3);
        calls := calls + GuardDeleter(dest, guard);
        return;
      }

      // success: the guard is released before it goes out of scope
      guard := None;
      assert Submitted(native);
      calls := calls + GuardDeleter(dest, guard);
      r := Value(());
    }
  }

  /** A printer that copies a native destination is determined by it: two listings of the same native state
      give printers with equal names, instances, default flags and option maps. */
  lemma CopiesDetermined(p: CupsPrinter, q: CupsPrinter, d: NativeDest)
    requires p.Copies(d) && q.Copies(d)
    ensures p.GetName() == q.GetName() && p.GetInstance() == q.GetInstance()
    ensures p.IsDefault() == q.IsDefault() && p.GetOptions() == q.GetOptions()
  {
    FirstWinsUnique(d.options, p.options, q.options);
  }

  /** A target identifier gives back the name and instance it was built from, as long as the name has no
      `/` (CUPS does not allow one in a printer name). */
  lemma TargetNameRoundTrip(p: CupsPrinter)
    requires '/' !in p.GetName()
    ensures SplitName(p.BuildName()) == (p.GetName(), p.GetInstance())
  {
    SplitTarget(p.name, p.instance);
  }
}
