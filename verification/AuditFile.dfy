/** The file side of the audit log: appending records and rotating the file by size.

    Rotated files are told apart by a suffix, the time of the rotation to the second.  Which
    file-system calls fail is part of each operation. */
module AuditFile {
  import opened Common
  import opened AuditLog
  import opened Grouping
  import opened Sorting

  /** `current` is the file at the log path, if there is one, `rotated` the renamed ones, and
      `order` their suffixes in the order of their latest rotation. */
  datatype Disk = Disk(current: Option<seq<Event>>, rotated: map<string, seq<Event>>, order: seq<string>)

  /** `open` says whether the logger holds the file open. */
  datatype State = State(open: bool, disk: Disk, maxSize: int)

  /** When the operation rotates, under which suffix, and what fails if it is tried. */
  datatype Faults = Faults(statFails: bool, renameFails: bool, openFails: bool, writeFails: bool)

  const NO_FAULTS := Faults(false, false, false, false)

  // ----- one operation -----

  function Without(order: seq<string>, suffix: string): seq<string> {
    if order == [] then []
    else if order[0] == suffix then Without(order[1..], suffix)
    else [order[0]] + Without(order[1..], suffix)
  }

  /** os.Rename onto the rotated name replaces a file that is already there. */
  function Renamed(d: Disk, suffix: string): Disk
    requires d.current.Some?
  {
    Disk(None, d.rotated[suffix := d.current.value], Without(d.order, suffix) + [suffix])
  }

  function OpenFile(s: State, fails: bool): (s': State)
    ensures s'.open ==> s'.disk.current.Some?
  {
    if fails then s.(open := false)
    else s.(open := true, disk := s.disk.(current := if s.disk.current.None? then Some([]) else s.disk.current))
  }

  /** Close, rename, and open again; after a failed rename the old file is opened again. */
  function RotateFile(s: State, suffix: string, f: Faults): State
    requires s.disk.current.Some?
  {
    if f.renameFails then OpenFile(s, f.openFails)
    else OpenFile(s.(disk := Renamed(s.disk, suffix)), f.openFails)
  }

  function Size(size: Event -> nat, events: seq<Event>): nat {
    if events == [] then 0 else size(events[0]) + Size(size, events[1..])
  }

  /** The logger keeps the file it has open on the disk. */
  predicate Healthy(s: State) { s.open ==> s.disk.current.Some? }

  predicate DueForRotation(size: Event -> nat, s: State, f: Faults)
    requires Healthy(s)
  {
    s.open && s.maxSize > 0 && !f.statFails && Size(size, s.disk.current.value) >= s.maxSize
  }

  function MaybeRotateStep(size: Event -> nat, s: State, suffix: string, f: Faults): State
    requires Healthy(s)
  {
    if DueForRotation(size, s, f) then RotateFile(s, suffix, f) else s
  }

  function WriteStep(s: State, e: Event, fails: bool): State
    requires Healthy(s)
  {
    if s.open && !fails then s.(disk := s.disk.(current := Some(s.disk.current.value + [e]))) else s
  }

  function LogStep(size: Event -> nat, s: State, e: Event, suffix: string, f: Faults): State
    requires Healthy(s)
  {
    WriteStep(MaybeRotateStep(size, s, suffix, f), e, f.writeFails)
  }

  /** The bytes of the record at each place. */
  function BytesAt(size: Event -> nat, events: seq<Event>): nat -> real {
    (i: nat) => if i < |events| then size(events[i]) as real else 0.0
  }

  lemma {:induction false} SizeByPosition(size: Event -> nat, events: seq<Event>)
    ensures Size(size, events) as real == SumTo(|events|, BytesAt(size, events))
  {
    if events != [] {
      SizeByPosition(size, events[1..]);
      SumToFirst(|events| - 1, BytesAt(size, events), BytesAt(size, events[1..]));
    }
  }

  /** Logging an event, case by case.  A file below the limit is never rotated, nor any file
      without a positive limit, one that is not open or whose size cannot be read: the event is
      appended to it, unless it is not open or the write fails.  Otherwise the file is renamed
      and a new one gets the event, or, if renaming fails, the same one; none does if opening
      it fails. */
  lemma {:induction false} RotatesExactlyAtTheLimit(size: Event -> nat, s: State, e: Event, suffix: string, f: Faults)
    requires Healthy(s)
    ensures var s' := LogStep(size, s, e, suffix, f);
      var was := if s.open then s.disk.current.value else [];
      if !s.open || s.maxSize <= 0 || f.statFails || SumTo(|was|, BytesAt(size, was)) < s.maxSize as real then
        && s'.open == s.open && s'.disk.rotated == s.disk.rotated
        && s'.disk.current == if s.open && !f.writeFails then Some(was + [e]) else s.disk.current
      else
        && s'.open == !f.openFails
        && s'.disk.rotated == (if f.renameFails then s.disk.rotated else s.disk.rotated[suffix := was])
        && s'.disk.current == (if f.renameFails then Some(if f.openFails || f.writeFails then was else was + [e])
                               else if f.openFails then None else Some(if f.writeFails then [] else [e]))
  {
    var was := if s.open then s.disk.current.value else [];
    SizeByPosition(size, was);
    assert SumTo(|was|, BytesAt(size, was)) < s.maxSize as real <==> Size(size, was) < s.maxSize;
    if DueForRotation(size, s, f) {
      var rotated := RotateFile(s, suffix, f);
      assert LogStep(size, s, e, suffix, f) == WriteStep(rotated, e, f.writeFails);
      assert [] + [e] == [e];
    }
  }

  // ----- the logger -----

  class FileLogger {
    var file: bool
    var disk: Disk
    var maxSize: int
    const size: Event -> nat

    constructor (size: Event -> nat, existing: Option<seq<Event>>)
      ensures this.size == size
      ensures Contents() == State(true, Disk(Some(if existing.Some? then existing.value else []), map[], []),
                                  100 * 1024 * 1024)
    {
      this.size := size;
      maxSize := 100 * 1024 * 1024;
      file := true;
      disk := Disk(Some(if existing.Some? then existing.value else []), map[], []);
    }

    function Contents(): State
      reads this
    {
      State(file, disk, maxSize)
    }

    method SetMaxSize(bytes: int)
      modifies this`maxSize
      ensures maxSize == bytes
    {
      maxSize := bytes;
    }

    method Open(fails: bool) returns (ok: bool)
      modifies this`file, this`disk
      ensures Contents() == OpenFile(old(Contents()), fails) && (ok <==> !fails)
    {
      if fails {
        file := false;
        return false;
      }
      if disk.current.None? {
        disk := disk.(current := Some([]));
      }
      file := true;
      return true;
    }

    method MaybeRotate(suffix: string, f: Faults)
      requires Healthy(Contents())
      modifies this`file, this`disk
      ensures Contents() == MaybeRotateStep(size, old(Contents()), suffix, f) && Healthy(Contents())
    {
      if !file || maxSize <= 0 {
        return;
      }
      if f.statFails {
        return;
      }
      if Size(size, disk.current.value) >= maxSize {
        file := false;
        if !f.renameFails {
          disk := Renamed(disk, suffix);
        }
        var _ := Open(f.openFails);
      }
    }

    method Rotate(suffix: string, f: Faults) returns (ok: bool)
      requires Healthy(Contents())
      modifies this`file, this`disk
      ensures Contents() == (if old(file) then RotateFile(old(Contents()), suffix, f) else old(Contents()))
      ensures ok <==> !old(file) || (!f.renameFails && !f.openFails)
    {
      if !file {
        return true;
      }
      file := false;
      if f.renameFails {
        var _ := Open(f.openFails);
        return false;
      }
      disk := Renamed(disk, suffix);
      ok := Open(f.openFails);
    }

    method Log(e: Event, suffix: string, f: Faults)
      requires Healthy(Contents())
      modifies this`file, this`disk
      ensures Contents() == LogStep(size, old(Contents()), e, suffix, f) && Healthy(Contents())
    {
      MaybeRotate(suffix, f);
      if file && !f.writeFails {
        disk := disk.(current := Some(disk.current.value + [e]));
      }
    }
  }

  // ----- what is on the disk -----

  function Gather(rotated: map<string, seq<Event>>, order: seq<string>): seq<Event>
    requires forall suffix :: suffix in order ==> suffix in rotated
  {
    if order == [] then [] else rotated[order[0]] + Gather(rotated, order[1..])
  }

  /** `order` lists every rotated file once. */
  ghost predicate Tidy(d: Disk) {
    && (forall suffix :: suffix in d.order <==> suffix in d.rotated)
    && Distinct(d.order)
  }

  /** The rotated files in order, and then the current one. */
  ghost function Records(d: Disk): seq<Event>
    requires Tidy(d)
  {
    Gather(d.rotated, d.order) + if d.current.Some? then d.current.value else []
  }

  lemma {:induction false} WithoutIs(order: seq<string>, suffix: string)
    requires Distinct(order)
    ensures var rest := Without(order, suffix);
      && (forall x :: x in rest <==> x in order && x != suffix)
      && Distinct(rest)
    decreases order
  {
    if order != [] {
      DistinctCons(order);
      WithoutIs(order[1..], suffix);
      var rest := Without(order, suffix);
      if order[0] != suffix {
        assert rest[1..] == Without(order[1..], suffix);
        DistinctCons(rest);
      }
    }
  }

  lemma {:induction false} RenamedIsTidy(d: Disk, suffix: string)
    requires Tidy(d) && d.current.Some?
    ensures Tidy(Renamed(d, suffix))
  {
    WithoutIs(d.order, suffix);
    DistinctSnoc(Without(d.order, suffix), suffix);
  }

  lemma {:induction false} GatherConcat(rotated: map<string, seq<Event>>, xs: seq<string>, ys: seq<string>)
    requires forall suffix :: suffix in xs || suffix in ys ==> suffix in rotated
    ensures Gather(rotated, xs + ys) == Gather(rotated, xs) + Gather(rotated, ys)
    decreases xs
  {
    if xs == [] {
      assert xs + ys == ys;
    } else {
      assert (xs + ys)[0] == xs[0] && (xs + ys)[1..] == xs[1..] + ys;
      GatherConcat(rotated, xs[1..], ys);
    }
  }

  lemma {:induction false} GatherIgnores(rotated: map<string, seq<Event>>, order: seq<string>, suffix: string,
      events: seq<Event>)
    requires forall x :: x in order ==> x in rotated && x != suffix
    ensures Gather(rotated[suffix := events], order) == Gather(rotated, order)
    decreases order
  {
    if order != [] {
      assert order[0] in order;
      GatherIgnores(rotated, order[1..], suffix, events);
    }
  }

  lemma {:induction false} GatherWithout(rotated: map<string, seq<Event>>, order: seq<string>, suffix: string)
    requires forall x :: x in order ==> x in rotated
    requires Distinct(order)
    ensures forall x :: x in Without(order, suffix) ==> x in rotated
    ensures var lost := if suffix in order then rotated[suffix] else [];
      && |Gather(rotated, Without(order, suffix))| == |Gather(rotated, order)| - |lost|
      && (lost == [] ==> Gather(rotated, Without(order, suffix)) == Gather(rotated, order))
    decreases order
  {
    WithoutIs(order, suffix);
    if order != [] {
      DistinctCons(order);
      GatherWithout(rotated, order[1..], suffix);
    }
  }

  /** A rename keeps every record in order, unless it replaces a file that is not empty: then
      exactly that file's records are gone. */
  lemma {:induction false} RenameConserves(d: Disk, suffix: string)
    requires Tidy(d) && d.current.Some?
    ensures Tidy(Renamed(d, suffix))
    ensures var lost := if suffix in d.rotated then d.rotated[suffix] else [];
      && |Records(Renamed(d, suffix))| == |Records(d)| - |lost|
      && (Records(Renamed(d, suffix)) == Records(d) <==> lost == [])
  {
    RenamedIsTidy(d, suffix);
    WithoutIs(d.order, suffix);
    GatherWithout(d.rotated, d.order, suffix);
    var rest := Without(d.order, suffix);
    var rotated' := d.rotated[suffix := d.current.value];
    GatherIgnores(d.rotated, rest, suffix, d.current.value);
    GatherConcat(rotated', rest, [suffix]);
    assert Gather(rotated', [suffix]) == d.current.value + Gather(rotated', []) by { assert [suffix][1..] == []; }
    assert Records(Renamed(d, suffix)) == Gather(d.rotated, rest) + d.current.value;
  }

  // ----- conservation over runs -----

  datatype Op =
    | LogEvent(e: Event, suffix: string, faults: Faults)
    | RotateNow(suffix: string, faults: Faults)
    | Resize(bytes: int)

  function Step(size: Event -> nat, s: State, op: Op): (s': State)
    requires Healthy(s)
    ensures Healthy(s')
  {
    match op
    case LogEvent(e, suffix, f) => LogStep(size, s, e, suffix, f)
    case RotateNow(suffix, f) => if s.open then RotateFile(s, suffix, f) else s
    case Resize(bytes) => s.(maxSize := bytes)
  }

  /** The operation renames the current file. */
  predicate Renames(size: Event -> nat, s: State, op: Op)
    requires Healthy(s)
  {
    match op
    case LogEvent(_, _, f) => DueForRotation(size, s, f) && !f.renameFails
    case RotateNow(_, f) => s.open && !f.renameFails
    case Resize(_) => false
  }

  /** The operation renames the current file onto a rotated file that is not empty. */
  predicate Clobbers(size: Event -> nat, s: State, op: Op)
    requires Healthy(s)
  {
    Renames(size, s, op) && op.suffix in s.disk.rotated && s.disk.rotated[op.suffix] != []
  }

  /** What the operation adds to the log: the event, if the file is open when it is written. */
  function Written(size: Event -> nat, s: State, op: Op): seq<Event>
    requires Healthy(s)
  {
    if op.LogEvent? && !op.faults.writeFails && MaybeRotateStep(size, s, op.suffix, op.faults).open then [op.e] else []
  }

  /** One operation loses nothing already logged if and only if it does not rename onto a
      rotated file with records in it, whatever fails; and nothing makes up for what is lost. */
  lemma {:induction false} StepConservesExactlyWhen(size: Event -> nat, s: State, op: Op)
    requires Healthy(s) && Tidy(s.disk)
    ensures var s' := Step(size, s, op);
      && Healthy(s') && Tidy(s'.disk)
      && (Records(s'.disk) == Records(s.disk) + Written(size, s, op) <==> !Clobbers(size, s, op))
      && (Clobbers(size, s, op) ==> |Records(s'.disk)| < |Records(s.disk)| + |Written(size, s, op)|)
  {
    match op {
      case LogEvent(e, suffix, f) =>
        var mid := MaybeRotateStep(size, s, suffix, f);
        if Renames(size, s, op) {
          RotationConservesExactlyWhen(s, suffix, f);
        } else {
          OpeningKeepsRecords(s, f.openFails);
        }
        WriteAppends(mid, e, f.writeFails);
        SameTail(Records(s.disk), Records(mid.disk), Written(size, s, op));
      case RotateNow(suffix, f) =>
        if Renames(size, s, op) {
          RotationConservesExactlyWhen(s, suffix, f);
        } else {
          OpeningKeepsRecords(s, f.openFails);
        }
        assert Records(s.disk) + [] == Records(s.disk);
      case Resize(_) =>
        assert Records(s.disk) + [] == Records(s.disk);
    }
  }

  lemma {:induction false} SameTail(xs: seq<Event>, ys: seq<Event>, tail: seq<Event>)
    ensures ys + tail == xs + tail <==> ys == xs
  {
    if ys + tail == xs + tail {
      assert |ys| == |xs|;
      assert xs == (xs + tail)[..|xs|] && ys == (ys + tail)[..|ys|];
    }
  }

  lemma {:induction false} OpeningKeepsRecords(s: State, fails: bool)
    requires Tidy(s.disk)
    ensures var s' := OpenFile(s, fails); Tidy(s'.disk) && Records(s'.disk) == Records(s.disk)
  {}

  lemma {:induction false} RotationConservesExactlyWhen(s: State, suffix: string, f: Faults)
    requires s.disk.current.Some? && Tidy(s.disk) && !f.renameFails
    ensures var s' := RotateFile(s, suffix, f);
      && Tidy(s'.disk)
      && (Records(s'.disk) == Records(s.disk) <==> !(suffix in s.disk.rotated && s.disk.rotated[suffix] != []))
      && (suffix in s.disk.rotated && s.disk.rotated[suffix] != [] ==> |Records(s'.disk)| < |Records(s.disk)|)
  {
    RenameConserves(s.disk, suffix);
    OpeningKeepsRecords(s.(disk := Renamed(s.disk, suffix)), f.openFails);
  }

  lemma {:induction false} WriteAppends(s: State, e: Event, fails: bool)
    requires Healthy(s) && Tidy(s.disk)
    ensures var s' := WriteStep(s, e, fails);
      && Tidy(s'.disk)
      && Records(s'.disk) == Records(s.disk) + if s.open && !fails then [e] else []
  {}

  function Run(size: Event -> nat, s: State, ops: seq<Op>): (s': State)
    requires Healthy(s)
    ensures Healthy(s')
    decreases ops
  {
    if ops == [] then s else Run(size, Step(size, s, ops[0]), ops[1..])
  }

  function AllWritten(size: Event -> nat, s: State, ops: seq<Op>): seq<Event>
    requires Healthy(s)
    decreases ops
  {
    if ops == [] then [] else Written(size, s, ops[0]) + AllWritten(size, Step(size, s, ops[0]), ops[1..])
  }

  /** No rename of the run replaces a file with records in it; in particular, a run in which
      no two rotations share a suffix. */
  predicate NeverClobbers(size: Event -> nat, s: State, ops: seq<Op>)
    requires Healthy(s)
    decreases ops
  {
    ops == [] || (!Clobbers(size, s, ops[0]) && NeverClobbers(size, Step(size, s, ops[0]), ops[1..]))
  }

  lemma {:induction false} Regroup<T>(a: seq<T>, b: seq<T>, c: seq<T>)
    ensures a + b + c == a + (b + c)
  {}

  /** Over any run, with any failures, the rotated files in order and the current file hold
      what they held before and everything written since, in order, if and only if no rename
      replaces a file with records in it; otherwise they hold fewer records. */
  lemma {:induction false} RunConservesExactlyWhen(size: Event -> nat, s: State, ops: seq<Op>)
    requires Healthy(s) && Tidy(s.disk)
    ensures var s', expected := Run(size, s, ops), Records(s.disk) + AllWritten(size, s, ops);
      && Tidy(s'.disk)
      && (Records(s'.disk) == expected <==> NeverClobbers(size, s, ops))
      && (!NeverClobbers(size, s, ops) ==> |Records(s'.disk)| < |expected|)
    decreases ops
  {
    if ops == [] {
      assert Records(s.disk) + [] == Records(s.disk);
    } else {
      var s' := Step(size, s, ops[0]);
      StepConservesExactlyWhen(size, s, ops[0]);
      RunConservesExactlyWhen(size, s', ops[1..]);
      Regroup(Records(s.disk), Written(size, s, ops[0]), AllWritten(size, s', ops[1..]));
    }
  }

  /** Two rotations within one second: the first rotated file is replaced by the second. */
  lemma {:induction false} SecondRotationReplacesTheFirst(size: Event -> nat, maxSize: int, e1: Event, e2: Event)
    ensures var s := State(true, Disk(Some([]), map[], []), maxSize);
      var ops := [LogEvent(e1, "t", NO_FAULTS), RotateNow("t", NO_FAULTS),
                  LogEvent(e2, "t", NO_FAULTS), RotateNow("t", NO_FAULTS)];
      Run(size, s, ops).disk == Disk(Some([]), map["t" := [e2]], ["t"]) && AllWritten(size, s, ops) == [e1, e2]
  {
    var s := State(true, Disk(Some([]), map[], []), maxSize);
    var log1, log2, rotate := LogEvent(e1, "t", NO_FAULTS), LogEvent(e2, "t", NO_FAULTS), RotateNow("t", NO_FAULTS);
    var s1 := Step(size, s, log1);
    var s2 := Step(size, s1, rotate);
    var s3 := Step(size, s2, log2);
    var s4 := Step(size, s3, rotate);
    assert [] + [e1] == [e1] && [] + [e2] == [e2] && ["t"][1..] == [] && ["t"] == [] + ["t"];
    assert s2.disk == Disk(Some([]), map["t" := [e1]], ["t"]);
    assert s4.disk == Disk(Some([]), map["t" := [e2]], ["t"]);
    var ops := [log1, rotate, log2, rotate];
    assert ops[1..] == [rotate, log2, rotate] && [rotate, log2, rotate][1..] == [log2, rotate];
    assert [log2, rotate][1..] == [rotate] && [rotate][1..] == [];
    assert Run(size, s3, [rotate]) == s4 && AllWritten(size, s3, [rotate]) == [];
    assert Run(size, s2, [log2, rotate]) == s4 && AllWritten(size, s2, [log2, rotate]) == [e2];
    assert Run(size, s1, [rotate, log2, rotate]) == s4 && AllWritten(size, s1, [rotate, log2, rotate]) == [e2];
  }

  // ----- runs without failures -----

  predicate Faultless(op: Op) {
    match op
    case LogEvent(_, _, f) => f == NO_FAULTS
    case RotateNow(_, f) => f == NO_FAULTS
    case Resize(_) => true
  }

  function Logged(ops: seq<Op>): seq<Event> {
    if ops == [] then []
    else if ops[0].LogEvent? then [ops[0].e] + Logged(ops[1..])
    else Logged(ops[1..])
  }

  function SuffixesUsed(size: Event -> nat, s: State, ops: seq<Op>): seq<string>
    requires Healthy(s)
    decreases ops
  {
    if ops == [] then []
    else
      var rest := SuffixesUsed(size, Step(size, s, ops[0]), ops[1..]);
      if Renames(size, s, ops[0]) then [ops[0].suffix] + rest else rest
  }

  lemma {:induction false} DistinctSuffixesNeverClobber(size: Event -> nat, s: State, ops: seq<Op>)
    requires Healthy(s)
    requires var used := SuffixesUsed(size, s, ops);
      && Distinct(used)
      && (forall suffix :: suffix in used ==> suffix !in s.disk.rotated)
    ensures NeverClobbers(size, s, ops)
    decreases ops
  {
    if ops != [] {
      var s', rest := Step(size, s, ops[0]), SuffixesUsed(size, Step(size, s, ops[0]), ops[1..]);
      var used := SuffixesUsed(size, s, ops);
      if Renames(size, s, ops[0]) {
        assert used[0] == ops[0].suffix && used[1..] == rest;
        DistinctCons(used);
        assert s'.disk.rotated.Keys == s.disk.rotated.Keys + {ops[0].suffix};
      } else {
        assert s'.disk.rotated == s.disk.rotated;
      }
      DistinctSuffixesNeverClobber(size, s', ops[1..]);
    }
  }

  lemma {:induction false} EverythingIsWritten(size: Event -> nat, s: State, ops: seq<Op>)
    requires Healthy(s) && s.open && forall op :: op in ops ==> Faultless(op)
    ensures AllWritten(size, s, ops) == Logged(ops)
    decreases ops
  {
    if ops != [] {
      assert Faultless(ops[0]);
      EverythingIsWritten(size, Step(size, s, ops[0]), ops[1..]);
    }
  }

  /** If nothing fails and no two rotations fall into the same second, rotation loses nothing:
      the rotated files in order and the current file are all events logged, in order. */
  lemma {:induction false} RotationLosesNothing(size: Event -> nat, maxSize: int, ops: seq<Op>)
    requires forall op :: op in ops ==> Faultless(op)
    requires var s := State(true, Disk(Some([]), map[], []), maxSize);
      var used := SuffixesUsed(size, s, ops);
      Distinct(used)
    ensures var s := State(true, Disk(Some([]), map[], []), maxSize);
      Tidy(Run(size, s, ops).disk) && Records(Run(size, s, ops).disk) == Logged(ops)
  {
    var s := State(true, Disk(Some([]), map[], []), maxSize);
    DistinctSuffixesNeverClobber(size, s, ops);
    RunConservesExactlyWhen(size, s, ops);
    EverythingIsWritten(size, s, ops);
    assert Records(s.disk) == [];
    assert [] + Logged(ops) == Logged(ops);
  }

  // ----- how large files get -----

  /** The file was below the limit before its last record. */
  predicate Fits(size: Event -> nat, maxSize: int, events: seq<Event>) {
    events == [] || Size(size, events[..|events| - 1]) < maxSize
  }

  predicate AllFit(size: Event -> nat, s: State) {
    && (s.disk.current.Some? ==> Fits(size, s.maxSize, s.disk.current.value))
    && (forall suffix :: suffix in s.disk.rotated ==> Fits(size, s.maxSize, s.disk.rotated[suffix]))
  }

  /** The rotation that is due does not take place, but the file stays open. */
  predicate RotationIsSkipped(f: Faults) { f.statFails || (f.renameFails && !f.openFails) }

  /** The operation writes to a file that has reached the limit. */
  predicate Outgrows(size: Event -> nat, s: State, op: Op)
    requires Healthy(s)
  {
    && op.LogEvent? && s.open && !op.faults.writeFails
    && Size(size, s.disk.current.value) >= s.maxSize
    && RotationIsSkipped(op.faults)
  }

  /** Under a positive limit an operation keeps every file, rotated or current, below the limit
      plus its last record, if and only if it does not write to a file that should have been
      rotated but could not be. */
  lemma {:induction false} StepFitsExactlyWhen(size: Event -> nat, s: State, op: Op)
    requires Healthy(s) && s.maxSize > 0 && AllFit(size, s) && !op.Resize?
    ensures AllFit(size, Step(size, s, op)) <==> !Outgrows(size, s, op)
    ensures Step(size, s, op).maxSize == s.maxSize
  {
    if op.LogEvent? {
      var mid := MaybeRotateStep(size, s, op.suffix, op.faults);
      assert AllFit(size, mid);
      if mid.open {
        var before := mid.disk.current.value;
        assert (before + [op.e])[..|before|] == before;
      }
    }
  }

  predicate AllFitThroughout(size: Event -> nat, s: State, ops: seq<Op>)
    requires Healthy(s)
    decreases ops
  {
    AllFit(size, s) && (ops == [] || AllFitThroughout(size, Step(size, s, ops[0]), ops[1..]))
  }

  predicate NeverOutgrows(size: Event -> nat, s: State, ops: seq<Op>)
    requires Healthy(s)
    decreases ops
  {
    ops == [] || (!Outgrows(size, s, ops[0]) && NeverOutgrows(size, Step(size, s, ops[0]), ops[1..]))
  }

  /** The files stay within the bound throughout a run if and only if none of its operations
      does that. */
  lemma {:induction false} FilesFitExactlyWhen(size: Event -> nat, s: State, ops: seq<Op>)
    requires Healthy(s) && s.maxSize > 0 && AllFit(size, s)
    requires forall op :: op in ops ==> !op.Resize?
    ensures AllFitThroughout(size, s, ops) <==> NeverOutgrows(size, s, ops)
    decreases ops
  {
    if ops != [] {
      var s' := Step(size, s, ops[0]);
      StepFitsExactlyWhen(size, s, ops[0]);
      if AllFit(size, s') {
        FilesFitExactlyWhen(size, s', ops[1..]);
      }
    }
  }

  /** So they do if sizes can be read and files renamed, whatever writes and reopenings fail. */
  lemma {:induction false} FilesStayBounded(size: Event -> nat, s: State, ops: seq<Op>)
    requires Healthy(s) && s.maxSize > 0 && AllFit(size, s)
    requires forall op :: op in ops ==> !op.Resize? && !op.faults.statFails && !op.faults.renameFails
    ensures AllFitThroughout(size, s, ops)
    decreases ops
  {
    if ops != [] {
      assert ops[0] in ops;
      StepFitsExactlyWhen(size, s, ops[0]);
      FilesStayBounded(size, Step(size, s, ops[0]), ops[1..]);
    }
  }

  /** While rotations are skipped, the one file takes every event, whatever its size. */
  lemma {:induction false} FileGrowsWithoutBound(size: Event -> nat, s: State, ops: seq<Op>)
    requires s.open && s.disk.current.Some?
    requires forall op :: op in ops ==> op.LogEvent? && RotationIsSkipped(op.faults) && !op.faults.writeFails
    ensures Run(size, s, ops) == s.(disk := s.disk.(current := Some(s.disk.current.value + Logged(ops))))
    decreases ops
  {
    if ops == [] {
      assert s.disk.current.value + [] == s.disk.current.value;
    } else {
      assert ops[0] in ops;
      FileGrowsWithoutBound(size, Step(size, s, ops[0]), ops[1..]);
      Regroup(s.disk.current.value, [ops[0].e], Logged(ops[1..]));
    }
  }

  // ----- events that never reach the file -----

  /** The operation tries to rotate: the file is closed and has to be opened again. */
  predicate Reopens(size: Event -> nat, s: State, op: Op)
    requires Healthy(s)
  {
    match op
    case LogEvent(_, _, f) => DueForRotation(size, s, f)
    case RotateNow(_, _) => s.open
    case Resize(_) => false
  }

  /** An open file is lost if and only if a rotation cannot open it again. */
  lemma {:induction false} FileIsLostExactlyWhen(size: Event -> nat, s: State, op: Op)
    requires Healthy(s) && s.open
    ensures !Step(size, s, op).open <==> Reopens(size, s, op) && op.faults.openFails
  {}

  /** A lost file is lost for good: nothing opens it again, the disk never changes, and no
      later event is written. */
  lemma {:induction false} LostForGood(size: Event -> nat, s: State, ops: seq<Op>)
    requires Healthy(s) && !s.open
    ensures var s' := Run(size, s, ops); !s'.open && s'.disk == s.disk
    ensures AllWritten(size, s, ops) == []
    decreases ops
  {
    if ops != [] {
      LostForGood(size, Step(size, s, ops[0]), ops[1..]);
    }
  }

  /** Every write succeeds, and no reopening fails in the run, unless nothing is logged from
      then on. */
  predicate NothingDropped(size: Event -> nat, s: State, ops: seq<Op>)
    requires Healthy(s)
    decreases ops
  {
    if ops == [] || Logged(ops) == [] then true
    else
      && s.open
      && (ops[0].LogEvent? ==> !ops[0].faults.writeFails && !(Reopens(size, s, ops[0]) && ops[0].faults.openFails))
      && NothingDropped(size, Step(size, s, ops[0]), ops[1..])
  }

  lemma {:induction false} WrittenAtMostLogged(size: Event -> nat, s: State, ops: seq<Op>)
    requires Healthy(s)
    ensures |AllWritten(size, s, ops)| <= |Logged(ops)|
    decreases ops
  {
    if ops != [] {
      WrittenAtMostLogged(size, Step(size, s, ops[0]), ops[1..]);
    }
  }

  /** Every logged event is written to the file if and only if, while there is something to
      log, the file is open, its writes succeed and it can always be opened again. */
  lemma {:induction false} EverythingIsWrittenExactlyWhen(size: Event -> nat, s: State, ops: seq<Op>)
    requires Healthy(s)
    ensures AllWritten(size, s, ops) == Logged(ops) <==> NothingDropped(size, s, ops)
    decreases ops
  {
    WrittenAtMostLogged(size, s, ops);
    if ops != [] && Logged(ops) != [] {
      var op, rest := ops[0], ops[1..];
      var s' := Step(size, s, op);
      WrittenAtMostLogged(size, s', rest);
      EverythingIsWrittenExactlyWhen(size, s', rest);
      if !s.open {
        LostForGood(size, s, ops);
      } else if op.LogEvent? {
        FileIsLostExactlyWhen(size, s, op);
        assert Logged(ops)[1..] == Logged(rest);
        if Written(size, s, op) != [] {
          assert AllWritten(size, s, ops)[1..] == AllWritten(size, s', rest);
        }
      }
    }
  }

  /** A run keeps all old records and every event it logs, in order, if and only if no rename
      replaces a file with records and nothing is dropped. */
  lemma {:induction false} RunKeepsEverythingExactlyWhen(size: Event -> nat, s: State, ops: seq<Op>)
    requires Healthy(s) && Tidy(s.disk)
    ensures Tidy(Run(size, s, ops).disk)
    ensures Records(Run(size, s, ops).disk) == Records(s.disk) + Logged(ops) <==>
      NeverClobbers(size, s, ops) && NothingDropped(size, s, ops)
  {
    RunConservesExactlyWhen(size, s, ops);
    EverythingIsWrittenExactlyWhen(size, s, ops);
    WrittenAtMostLogged(size, s, ops);
    var kept, written, logged := Records(s.disk), AllWritten(size, s, ops), Logged(ops);
    if kept + written == kept + logged {
      assert written == (kept + written)[|kept|..] && logged == (kept + logged)[|kept|..];
    }
  }
}
