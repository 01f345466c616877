/** The persistent FIFO of iot/mqttc/queue.go: a list in memory and a JSONL
    snapshot replaced by rename, with failures and crashes between any two steps
    of the rewrite. */
module EventQueue {
  import opened Common

  datatype Frame = Frame(topic: string, payload: string, retain: bool)

  /** A queued frame and a line of the snapshot. The ticket numbers the add calls;
      the program never reads it, it only lets properties tell equal frames apart. */
  datatype Entry = Entry(ticket: nat, frame: Frame)
  datatype Line = Line(ticket: nat, text: string)

  /** The JSON form of a frame. Encoding can fail; what was encoded decodes back. */
  datatype Codec = Codec(encode: Frame -> Option<string>, decode: string -> Option<Frame>)

  ghost predicate Faithful(codec: Codec) {
    forall f :: codec.encode(f).Some? ==> codec.decode(codec.encode(f).value) == Some(f)
  }

  function EncodeEntry(codec: Codec, e: Entry): Option<Line> {
    var text := codec.encode(e.frame);
    if text.None? then None else Some(Line(e.ticket, text.value))
  }

  function DecodeLine(codec: Codec, l: Line): Option<Entry> {
    var f := codec.decode(l.text);
    if f.None? then None else Some(Entry(l.ticket, f.value))
  }

  /** What can befall a rewrite of n entries. The steps are: 0 open the tmp file,
      1 .. n encode an entry, n+1 flush, n+2 close, n+3 rename. A crash at step k
      happens before it; step n+4 is after the rename. */
  datatype Io = Smooth | FailsAt(step: nat) | CrashesAt(step: nat)

  datatype Outcome = Nil | Err | Crashed

  /** The two files; they survive a crash. */
  class Disk {
    var file: Option<seq<Line>>
    var tmp: Option<seq<Line>>

    constructor ()
      ensures file == None && tmp == None
    {
      file, tmp := None, None;
    }
  }

  function EncodeLines(codec: Codec, entries: seq<Entry>): Option<seq<Line>> {
    if entries == [] then Some([])
    else
      var init, last := EncodeLines(codec, entries[..|entries| - 1]), EncodeEntry(codec, entries[|entries| - 1]);
      if init.None? || last.None? then None else Some(init.value + [last.value])
  }

  /** Corrupt lines are dropped. */
  function DecodeLines(codec: Codec, lines: seq<Line>): seq<Entry> {
    if lines == [] then []
    else
      var init, last := DecodeLines(codec, lines[..|lines| - 1]), DecodeLine(codec, lines[|lines| - 1]);
      if last.None? then init else init + [last.value]
  }

  /** A line that does not decode is skipped; the lines around it are loaded. */
  lemma {:induction false} CorruptLineIsSkipped(codec: Codec, before: seq<Line>, bad: Line, later: seq<Line>)
    requires codec.decode(bad.text).None?
    ensures DecodeLines(codec, before + [bad] + later) == DecodeLines(codec, before + later)
  {
    if later == [] {
      assert before + [bad] + later == before + [bad] && before + later == before;
      assert (before + [bad])[..|before|] == before;
    } else {
      var n := |later| - 1;
      CorruptLineIsSkipped(codec, before, bad, later[..n]);
      assert (before + [bad] + later)[..|before| + 1 + n] == before + [bad] + later[..n];
      assert (before + later)[..|before| + n] == before + later[..n];
    }
  }

  /** What openQueue loads from a snapshot. */
  function Load(codec: Codec, file: Option<seq<Line>>): seq<Entry> {
    if file.None? then [] else DecodeLines(codec, file.value)
  }

  lemma {:induction false} LoadUndoesSave(codec: Codec, entries: seq<Entry>)
    requires Faithful(codec) && EncodeLines(codec, entries).Some?
    ensures Load(codec, EncodeLines(codec, entries)) == entries
  {
    if entries != [] {
      var init, last := entries[..|entries| - 1], entries[|entries| - 1];
      LoadUndoesSave(codec, init);
      var lines := EncodeLines(codec, entries).value;
      assert lines[..|lines| - 1] == EncodeLines(codec, init).value;
      assert entries == init + [last];
    }
  }

  /** The snapshot after a rewrite: replaced as a whole or untouched, and replaced
      for certain if the rewrite reports success. */
  ghost predicate Rewritten(codec: Codec, persistent: bool, entries: seq<Entry>,
                            before: Option<seq<Line>>, after: Option<seq<Line>>, r: Outcome)
  {
    var saved := EncodeLines(codec, entries);
    if !persistent then r == Nil && after == before
    else
      match r
      case Nil => saved.Some? && after == saved
      case Err => after == before
      case Crashed => after == before || (saved.Some? && after == saved)
  }

  /** The rewrite step by step: which failure or crash decides it, and what it leaves. A
      failure or crash at a step that is never reached changes nothing. */
  ghost predicate Persisted(codec: Codec, persistent: bool, entries: seq<Entry>, io: Io,
                            before: Option<seq<Line>>, after: Option<seq<Line>>, r: Outcome)
  {
    var n, saved := |entries|, EncodeLines(codec, entries);
    if !persistent then r == Nil && after == before
    else if io.CrashesAt? && Reached(codec, entries, io.step) && io.step <= n + 4 then
      r == Crashed && after == if io.step == n + 4 then saved else before
    else if saved.None? || (io.FailsAt? && io.step <= n + 3) then r == Err && after == before
    else r == Nil && after == saved
  }

  /** Everything before a step has succeeded: the entries it comes after are encoded. */
  predicate Reached(codec: Codec, entries: seq<Entry>, step: nat) {
    if step == 0 then true
    else if step <= |entries| then EncodeLines(codec, entries[..step - 1]).Some?
    else EncodeLines(codec, entries).Some?
  }

  function Trimmed(entries: seq<Entry>, max: nat): seq<Entry> {
    if |entries| > max then entries[|entries| - max..] else entries
  }

  const DEFAULT_MAX := 10000

  class Queue {
    const codec: Codec
    const persistent: bool
    const max: nat
    const disk: Disk
    var entries: seq<Entry>

    /** openQueue on a readable (or absent) buffer file; without a path the queue
        lives in memory only. */
    constructor (codec: Codec, path: string, max: int, disk: Disk)
      ensures this.codec == codec && this.disk == disk && persistent == (path != "")
      ensures this.max == if max <= 0 then 10000 else max
      ensures entries == if path == "" then [] else Load(codec, disk.file)
    {
      this.codec, this.disk, this.persistent := codec, disk, path != "";
      this.max := if max <= 0 then DEFAULT_MAX else max;
      entries := [];
      new;
      if path == "" || disk.file.None? { return; }
      var lines := disk.file.value;
      for i := 0 to |lines|
        invariant entries == DecodeLines(codec, lines[..i])
      {
        assert lines[..i + 1][..i] == lines[..i];
        var e := DecodeLine(codec, lines[i]);
        if e.Some? { entries := entries + [e.value]; }
      }
      assert lines[..|lines|] == lines;
    }

    /** persistLocked */
    method Persist(io: Io) returns (r: Outcome)
      modifies disk
      ensures Persisted(codec, persistent, entries, io, old(disk.file), disk.file, r)
      ensures Rewritten(codec, persistent, entries, old(disk.file), disk.file, r)
      ensures persistent && io == Smooth ==> (r == Nil <==> EncodeLines(codec, entries).Some?) && r != Crashed
      ensures persistent && io.FailsAt? && io.step <= |entries| + 3 ==> r == Err
    {
      if !persistent { return Nil; }
      if io == CrashesAt(0) { return Crashed; }
      if io == FailsAt(0) { return Err; }
      disk.tmp := Some([]);
      var n := |entries|;
      for i := 0 to n
        invariant disk.file == old(disk.file) && disk.tmp == EncodeLines(codec, entries[..i]) && disk.tmp.Some?
        invariant !io.Smooth? ==> io.step > i
      {
        assert entries[..i + 1][..i] == entries[..i];
        if io == CrashesAt(i + 1) { return Crashed; }
        var line := EncodeEntry(codec, entries[i]);
        if io == FailsAt(i + 1) || line.None? {
          if line.None? { StopsAt(codec, entries, i, io); }
          return Err;
        }
        disk.tmp := Some(disk.tmp.value + [line.value]);
      }
      assert entries[..n] == entries;
      if io == CrashesAt(n + 1) || io == CrashesAt(n + 2) || io == CrashesAt(n + 3) { return Crashed; }
      if io == FailsAt(n + 1) || io == FailsAt(n + 2) || io == FailsAt(n + 3) { return Err; }
      disk.file, disk.tmp := disk.tmp, None;
      if io == CrashesAt(n + 4) { return Crashed; }
      return Nil;
    }

    method Add(e: Entry, io: Io) returns (r: Outcome)
      modifies this, disk
      ensures AddEffect(codec, persistent, max, old(Snapshot()), e, r, Snapshot())
      ensures Persisted(codec, persistent, entries, io, old(disk.file), disk.file, r)
      ensures io == Smooth && EncodeLines(codec, entries).Some? ==> r == Nil && (persistent ==> disk.file == EncodeLines(codec, entries))
      ensures !persistent ==> r == Nil
    {
      entries := entries + [e];
      if |entries| > max {
        var drop := |entries| - max;
        entries := entries[drop..];
      }
      r := Persist(io);
    }

    /** drain with a publish callback that accepts `accepts` frames and then fails,
        or, when `dies`, with a crash at that point instead. `published` is what the
        broker received. */
    method Drain(accepts: nat, dies: bool, io: Io) returns (published: seq<Entry>, r: Outcome)
      modifies this, disk
      ensures DrainEffect(codec, persistent, old(Snapshot()), |published|, r, Snapshot())
      ensures published == old(entries)[..|published|]
      ensures |published| == if accepts < |old(entries)| then accepts else |old(entries)|
      ensures r == Nil ==> entries == []
      ensures |old(entries)| > 0 && !(dies && accepts < |old(entries)|) ==>
                exists p :: Persisted(codec, persistent, entries, io, old(disk.file), disk.file, p)
                            && r == if p == Crashed then Crashed else if accepts < |old(entries)| then Err else Nil
      ensures dies && accepts < |old(entries)| ==> r == Crashed && disk.file == old(disk.file)
      ensures io == Smooth ==> r == if accepts >= |old(entries)| then Nil else if dies then Crashed else Err
      ensures io == Smooth && r != Crashed && persistent && |old(entries)| > 0 && EncodeLines(codec, entries).Some? ==>
                disk.file == EncodeLines(codec, entries)
    {
      published := [];
      r := Nil;
      if |entries| == 0 { return; }
      ghost var all := entries;
      while |entries| > 0
        invariant |published| <= |all| && |published| <= accepts
        invariant published == all[..|published|] && entries == all[|published|..]
        invariant disk.file == old(disk.file)
        decreases |entries|
      {
        var e := entries[0];
        if |published| == accepts {
          if dies { return published, Crashed; }
          var p := Persist(io);
          return published, if p == Crashed then Crashed else Err;
        }
        published := published + [e];
        entries := entries[1..];
      }
      var p := Persist(io);
      r := if p == Crashed then Crashed else Nil;
    }

    ghost function Snapshot(): Local
      reads this, disk
    {
      Local(entries, disk.file)
    }
  }

  /** An entry that cannot be encoded ends the rewrite before any later step. */
  lemma StopsAt(codec: Codec, entries: seq<Entry>, i: nat, io: Io)
    requires i < |entries| && EncodeEntry(codec, entries[i]).None?
    ensures EncodeLines(codec, entries).None?
    ensures io.CrashesAt? && io.step > i + 1 ==> !Reached(codec, entries, io.step)
  {
    EncodeFailsEarly(codec, entries, i);
    if io.CrashesAt? && i + 1 < io.step <= |entries| {
      EncodeFailsEarly(codec, entries[..io.step - 1], i);
    }
  }

  lemma {:induction false} EncodeFailsEarly(codec: Codec, entries: seq<Entry>, i: nat)
    requires i < |entries| && EncodeEntry(codec, entries[i]).None?
    ensures EncodeLines(codec, entries).None?
    decreases |entries|
  {
    if i < |entries| - 1 { EncodeFailsEarly(codec, entries[..|entries| - 1], i); }
  }

  // -- Effects of the operations --------------------------------------------

  /** Memory and snapshot of one process. */
  datatype Local = Local(entries: seq<Entry>, file: Option<seq<Line>>)

  ghost predicate AddEffect(codec: Codec, persistent: bool, max: nat, l: Local, e: Entry, r: Outcome, l2: Local) {
    && l2.entries == Trimmed(l.entries + [e], max)
    && Rewritten(codec, persistent, l2.entries, l.file, l2.file, r)
  }

  /** The first `sent` entries were published; the rest is kept, and the snapshot
      is rewritten unless that failed. */
  ghost predicate DrainEffect(codec: Codec, persistent: bool, l: Local, sent: nat, r: Outcome, l2: Local) {
    && sent <= |l.entries|
    && l2.entries == l.entries[sent..]
    && (r == Err ==> sent < |l.entries|)
    && (l2.file == l.file || (persistent && l2.file.Some? && l2.file == EncodeLines(codec, l2.entries)))
  }

  // -- Every run ------------------------------------------------------------

  /** The device: at most one process, its files, and the history of all lives.
      `sentThisLife` holds the drained frames of the current process in order. */
  datatype Device = Device(
    up: bool,
    local: Local,
    nextTicket: nat,
    acked: set<Entry>,
    published: set<Entry>,
    shed: set<Entry>,
    crashedOnce: bool,
    sentThisLife: seq<Entry>)

  datatype Setup = Setup(codec: Codec, persistent: bool, max: nat)

  datatype Op =
    | Open
    | Crash
    | Publish(frame: Frame, reached: bool, r: Outcome)  // PublishEvent and reportAck
    | Drain(sent: nat, r: Outcome)

  function Elements(s: seq<Entry>): set<Entry> {
    set e | e in s
  }

  function Restarted(d: Device, r: Outcome, after: Local): Device {
    if r == Crashed then d.(up := false, crashedOnce := true, local := Local([], after.file)) else d.(local := after)
  }

  /** The device after an add of `e`. */
  function AfterAdd(d: Device, e: Entry, r: Outcome, after: Local): Device {
    Restarted(d.(nextTicket := d.nextTicket + 1,
                 acked := if r == Nil then d.acked + {e} else d.acked,
                 shed := d.shed + (Elements(d.local.entries + [e]) - Elements(after.entries))), r, after)
  }

  /** The device after a drain that published `sent` frames. */
  function AfterDrain(d: Device, sent: nat, r: Outcome, after: Local): Device
    requires sent <= |d.local.entries|
  {
    Restarted(d.(published := d.published + Elements(d.local.entries[..sent]),
                 sentThisLife := d.sentThisLife + d.local.entries[..sent]), r, after)
  }

  /** One operation of the device. Queue operations hold the queue's mutex, so they
      do not interleave; a crash inside one ends the process there. */
  ghost predicate Next(c: Setup, d: Device, op: Op, d2: Device) {
    match op
    case Open =>
      !d.up && d2 == d.(up := true, sentThisLife := [], local := Local(if c.persistent then Load(c.codec, d.local.file) else [], d.local.file))
    case Crash =>
      d.up && d2 == Restarted(d, Crashed, d.local)
    case Publish(frame, reached, r) =>
      var e := Entry(d.nextTicket, frame);
      && d.up
      && if reached then
           // delivered directly; the queue is not involved
           r == Nil && d2 == d.(nextTicket := d.nextTicket + 1, acked := d.acked + {e}, published := d.published + {e})
         else
           exists after :: AddEffect(c.codec, c.persistent, c.max, d.local, e, r, after) && d2 == AfterAdd(d, e, r, after)
    case Drain(sent, r) =>
      && d.up
      && exists after :: DrainEffect(c.codec, c.persistent, d.local, sent, r, after) && d2 == AfterDrain(d, sent, r, after)
  }

  /** A device before its first start: the buffer file may hold anything an earlier
      version left there, in ticket order. */
  ghost predicate Initial(c: Setup, d: Device) {
    && Faithful(c.codec) && c.max > 0
    && !d.up && d.local.entries == [] && d.acked == d.published == d.shed == {} && d.sentThisLife == []
    && InTicketOrder(Load(c.codec, d.local.file)) && Below(Load(c.codec, d.local.file), d.nextTicket)
  }

  ghost predicate InTicketOrder(s: seq<Entry>) {
    forall i, j :: 0 <= i < j < |s| ==> s[i].ticket < s[j].ticket
  }

  ghost predicate Below(s: seq<Entry>, n: nat) {
    forall i :: 0 <= i < |s| ==> s[i].ticket < n
  }

  /** An acknowledged entry is still the queue's responsibility: in memory if the
      process runs, and in the snapshot if there is one. */
  ghost predicate Queued(c: Setup, d: Device, e: Entry) {
    && (d.up ==> e in d.local.entries)
    && (c.persistent ==> e in Load(c.codec, d.local.file))
    && (!c.persistent ==> d.up)
  }

  ghost predicate Inv(c: Setup, d: Device) {
    && (forall e <- d.acked :: e in d.published || e in d.shed || Queued(c, d, e) || (!c.persistent && d.crashedOnce))
    && InTicketOrder(d.sentThisLife + d.local.entries) && Below(d.sentThisLife + d.local.entries, d.nextTicket)
    && InTicketOrder(Load(c.codec, d.local.file)) && Below(Load(c.codec, d.local.file), d.nextTicket)
  }

  /** A rewritten snapshot loads as the old one or as the memory it was made from. */
  lemma RewrittenLoads(c: Setup, entries: seq<Entry>, before: Option<seq<Line>>, after: Option<seq<Line>>, r: Outcome)
    requires Faithful(c.codec) && Rewritten(c.codec, c.persistent, entries, before, after, r)
    ensures Load(c.codec, after) == Load(c.codec, before) || Load(c.codec, after) == entries
    ensures c.persistent && r == Nil ==> Load(c.codec, after) == entries
  {
    if EncodeLines(c.codec, entries).Some? { LoadUndoesSave(c.codec, entries); }
  }

  lemma OpenKeepsInv(c: Setup, d: Device, d2: Device)
    requires Faithful(c.codec) && Inv(c, d) && Next(c, d, Open, d2)
    ensures Inv(c, d2)
  {
    assert d2.sentThisLife + d2.local.entries == d2.local.entries;
  }

  /** Dropping a middle piece keeps order and bound. */
  lemma DropMiddle(a: seq<Entry>, b: seq<Entry>, k: nat, n: nat)
    requires k <= |b| && InTicketOrder(a + b) && Below(a + b, n)
    ensures InTicketOrder(a + b[k..]) && Below(a + b[k..], n)
  {
    var s, t := a + b, a + b[k..];
    forall i | 0 <= i < |t| ensures t[i] == if i < |a| then s[i] else s[i + k] {}
    forall i, j | 0 <= i < j < |t| ensures t[i].ticket < t[j].ticket {
      assert t[i] == s[if i < |a| then i else i + k] && t[j] == s[if j < |a| then j else j + k];
    }
    forall i | 0 <= i < |t| ensures t[i].ticket < n {
      assert t[i] == s[if i < |a| then i else i + k];
    }
  }

  lemma Halves(a: seq<Entry>, b: seq<Entry>, n: nat)
    requires InTicketOrder(a + b) && Below(a + b, n)
    ensures InTicketOrder(a) && Below(a, n) && InTicketOrder(b) && Below(b, n)
  {
    forall i | 0 <= i < |a| ensures a[i] == (a + b)[i] {}
    forall i | 0 <= i < |b| ensures b[i] == (a + b)[|a| + i] {}
  }

  /** The part of the invariant about order, for a device that went down or not. */
  lemma RestartedInOrder(d: Device, r: Outcome, after: Local)
    requires InTicketOrder(d.sentThisLife + after.entries) && Below(d.sentThisLife + after.entries, d.nextTicket)
    ensures var d2 := Restarted(d, r, after);
            InTicketOrder(d2.sentThisLife + d2.local.entries) && Below(d2.sentThisLife + d2.local.entries, d.nextTicket)
  {
    Halves(d.sentThisLife, after.entries, d.nextTicket);
    assert d.sentThisLife + [] == d.sentThisLife;
  }

  lemma AddKeepsOrder(sent: seq<Entry>, entries: seq<Entry>, e: Entry, max: nat)
    requires InTicketOrder(sent + entries) && Below(sent + entries, e.ticket)
    ensures InTicketOrder(sent + Trimmed(entries + [e], max)) && Below(sent + Trimmed(entries + [e], max), e.ticket + 1)
  {
    var longer := entries + [e];
    assert sent + longer == (sent + entries) + [e];
    DropMiddle(sent, longer, |longer| - |Trimmed(longer, max)|, e.ticket + 1);
    assert longer[|longer| - |Trimmed(longer, max)|..] == Trimmed(longer, max);
  }

  lemma AddKeepsInv(c: Setup, d: Device, e: Entry, r: Outcome, after: Local)
    requires Faithful(c.codec) && c.max > 0 && Inv(c, d) && d.up && e.ticket == d.nextTicket
    requires AddEffect(c.codec, c.persistent, c.max, d.local, e, r, after)
    ensures Inv(c, AfterAdd(d, e, r, after))
  {
    var d2 := AfterAdd(d, e, r, after);
    RewrittenLoads(c, after.entries, d.local.file, after.file, r);
    AddKeepsOrder(d.sentThisLife, d.local.entries, e, c.max);
    Halves(d.sentThisLife, after.entries, e.ticket + 1);
    RestartedInOrder(d.(nextTicket := d.nextTicket + 1), r, after);
    forall x | x in d2.acked && x !in d2.published && x !in d2.shed && (c.persistent || !d2.crashedOnce) ensures Queued(c, d2, x) {
      AddQueues(c, d, e, r, after, x);
    }
  }

  lemma AddQueues(c: Setup, d: Device, e: Entry, r: Outcome, after: Local, x: Entry)
    requires Faithful(c.codec) && c.max > 0 && d.up && AddEffect(c.codec, c.persistent, c.max, d.local, e, r, after)
    requires var d2 := AfterAdd(d, e, r, after); x in d2.acked && x !in d2.shed && (c.persistent || !d2.crashedOnce)
    requires x in d.acked ==> Queued(c, d, x)
    ensures Queued(c, AfterAdd(d, e, r, after), x)
  {
    RewrittenLoads(c, after.entries, d.local.file, after.file, r);
    var longer := d.local.entries + [e];
    assert longer[|d.local.entries|] == e;
    assert x in longer && x in Elements(longer);
    assert x in after.entries;
  }

  lemma DrainKeepsInv(c: Setup, d: Device, sent: nat, r: Outcome, after: Local)
    requires Faithful(c.codec) && Inv(c, d) && d.up && DrainEffect(c.codec, c.persistent, d.local, sent, r, after)
    ensures Inv(c, AfterDrain(d, sent, r, after))
  {
    var d2 := AfterDrain(d, sent, r, after);
    var all := d.local.entries;
    Halves(d.sentThisLife + all[..sent], all[sent..], d.nextTicket) by {
      assert (d.sentThisLife + all[..sent]) + all[sent..] == d.sentThisLife + all;
    }
    RestartedInOrder(d.(sentThisLife := d.sentThisLife + all[..sent]), r, after) by {
      assert (d.sentThisLife + all[..sent]) + all[sent..] == d.sentThisLife + all;
    }
    DrainLoads(c, d, sent, r, after);
    forall x | x in d2.acked && x !in d2.published && x !in d2.shed && (c.persistent || !d2.crashedOnce) ensures Queued(c, d2, x) {
      DrainQueues(c, d, sent, r, after, x);
    }
  }

  lemma DrainLoads(c: Setup, d: Device, sent: nat, r: Outcome, after: Local)
    requires Faithful(c.codec) && DrainEffect(c.codec, c.persistent, d.local, sent, r, after)
    ensures Load(c.codec, after.file) == Load(c.codec, d.local.file) || Load(c.codec, after.file) == d.local.entries[sent..]
  {
    if EncodeLines(c.codec, after.entries).Some? { LoadUndoesSave(c.codec, after.entries); }
  }

  lemma DrainQueues(c: Setup, d: Device, sent: nat, r: Outcome, after: Local, x: Entry)
    requires Faithful(c.codec) && d.up && DrainEffect(c.codec, c.persistent, d.local, sent, r, after)
    requires var d2 := AfterDrain(d, sent, r, after); x in d2.acked && x !in d2.published && (c.persistent || !d2.crashedOnce)
    requires Queued(c, d, x)
    ensures Queued(c, AfterDrain(d, sent, r, after), x)
  {
    var all := d.local.entries;
    DrainLoads(c, d, sent, r, after);
    assert x in all && x !in all[..sent];
    assert all == all[..sent] + all[sent..];
    assert x in all[sent..];
  }

  lemma NextKeepsInv(c: Setup, d: Device, op: Op, d2: Device)
    requires Faithful(c.codec) && c.max > 0 && Inv(c, d) && Next(c, d, op, d2)
    ensures Inv(c, d2)
  {
    match op
    case Open => OpenKeepsInv(c, d, d2);
    case Crash => RestartedInOrder(d, Crashed, d.local);
    case Publish(frame, reached, r) =>
      var e := Entry(d.nextTicket, frame);
      if !reached {
        var after :| AddEffect(c.codec, c.persistent, c.max, d.local, e, r, after) && d2 == AfterAdd(d, e, r, after);
        AddKeepsInv(c, d, e, r, after);
      }
    case Drain(sent, r) =>
      var after :| DrainEffect(c.codec, c.persistent, d.local, sent, r, after) && d2 == AfterDrain(d, sent, r, after);
      DrainKeepsInv(c, d, sent, r, after);
  }

  /** A history: one more device state than operations. */
  ghost predicate IsRun(c: Setup, ds: seq<Device>, ops: seq<Op>) {
    |ds| == |ops| + 1 && forall i :: 0 <= i < |ops| ==> Next(c, ds[i], ops[i], ds[i + 1])
  }

  lemma {:induction false} RunKeepsInv(c: Setup, ds: seq<Device>, ops: seq<Op>)
    requires IsRun(c, ds, ops) && Initial(c, ds[0])
    ensures Inv(c, ds[|ops|])
    decreases |ops|
  {
    if ops != [] {
      var n := |ops| - 1;
      assert IsRun(c, ds[..|ops|], ops[..n]);
      RunKeepsInv(c, ds[..|ops|], ops[..n]);
      NextKeepsInv(c, ds[n], ops[n], ds[n + 1]);
    }
  }

  /** The operation is an add to a queue in which x has at least max newer entries, the
      added one among them. */
  ghost predicate Overflows(c: Setup, d: Device, op: Op, x: Entry) {
    && d.up && op.Publish? && !op.reached
    && exists k :: OldestBy(d.local.entries + [Entry(d.nextTicket, op.frame)], k, c.max, x)
  }

  /** x is entry k, and behind it are max entries or more, all with later tickets. */
  ghost predicate OldestBy(all: seq<Entry>, k: int, max: nat, x: Entry) {
    && 0 <= k < |all| && all[k] == x && |all| - k - 1 >= max
    && forall j :: k < j < |all| ==> x.ticket < all[j].ticket
  }

  /** An add sheds exactly the entries that it makes overflow. */
  lemma TrimSheds(all: seq<Entry>, max: nat, x: Entry)
    requires InTicketOrder(all)
    ensures x in Elements(all) - Elements(Trimmed(all, max)) <==> exists k :: OldestBy(all, k, max, x)
  {
    var kept := Trimmed(all, max);
    forall j | |all| - |kept| <= j < |all| ensures all[j] in kept {
      assert kept[j - (|all| - |kept|)] == all[j];
    }
    if x in all && x !in kept {
      var k :| 0 <= k < |all| && all[k] == x;
      assert OldestBy(all, k, max, x);
    }
    if k :| OldestBy(all, k, max, x) {
      forall i | 0 <= i < |kept| ensures kept[i] != x {
        assert kept[i] == all[i + (|all| - |kept|)];
      }
    }
  }

  lemma QueueInOrder(c: Setup, d: Device, e: Entry)
    requires Inv(c, d) && e.ticket == d.nextTicket
    ensures InTicketOrder(d.local.entries + [e])
  {
    Halves(d.sentThisLife, d.local.entries, d.nextTicket);
  }

  lemma NextSheds(c: Setup, d: Device, op: Op, d2: Device, x: Entry)
    requires Inv(c, d) && Next(c, d, op, d2)
    ensures x in d2.shed <==> x in d.shed || Overflows(c, d, op, x)
  {
    if op.Publish? && !op.reached {
      var e := Entry(d.nextTicket, op.frame);
      QueueInOrder(c, d, e);
      TrimSheds(d.local.entries + [e], c.max, x);
    }
  }

  ghost predicate OverflowedIn(c: Setup, ds: seq<Device>, ops: seq<Op>, x: Entry)
    requires |ds| > |ops|
  {
    exists i :: 0 <= i < |ops| && Overflows(c, ds[i], ops[i], x)
  }

  /** In every history the entries shed are exactly those that an add made overflow. */
  lemma {:induction false} ShedIsOverflow(c: Setup, ds: seq<Device>, ops: seq<Op>, x: Entry)
    requires IsRun(c, ds, ops) && Initial(c, ds[0])
    ensures x in ds[|ops|].shed <==> OverflowedIn(c, ds, ops, x)
    decreases |ops|
  {
    if ops != [] {
      var n := |ops| - 1;
      assert IsRun(c, ds[..|ops|], ops[..n]);
      RunKeepsInv(c, ds[..|ops|], ops[..n]);
      ShedIsOverflow(c, ds[..|ops|], ops[..n], x);
      NextSheds(c, ds[n], ops[n], ds[n + 1], x);
      OverflowedSnoc(c, ds, ops, x);
    }
  }

  lemma OverflowedSnoc(c: Setup, ds: seq<Device>, ops: seq<Op>, x: Entry)
    requires |ds| > |ops| > 0
    ensures var n := |ops| - 1;
            OverflowedIn(c, ds, ops, x) <==> OverflowedIn(c, ds[..|ops|], ops[..n], x) || Overflows(c, ds[n], ops[n], x)
  {
    var n := |ops| - 1;
    if OverflowedIn(c, ds, ops, x) {
      var i :| 0 <= i < |ops| && Overflows(c, ds[i], ops[i], x);
      if i < n { assert Overflows(c, ds[..|ops|][i], ops[..n][i], x); }
    }
    if OverflowedIn(c, ds[..|ops|], ops[..n], x) {
      var i :| 0 <= i < n && Overflows(c, ds[..|ops|][i], ops[..n][i], x);
      assert Overflows(c, ds[i], ops[i], x);
    }
  }

  /** At least once (section 4.3.2 of MQTT 3.1.1): after any history of failed
      writes and crashes, every entry whose add reported success has been published,
      was the oldest of an overflow, or is queued in memory and in the snapshot. */
  lemma NothingAcknowledgedIsLost(c: Setup, ds: seq<Device>, ops: seq<Op>, e: Entry)
    requires IsRun(c, ds, ops) && Initial(c, ds[0]) && c.persistent && e in ds[|ops|].acked
    ensures var d := ds[|ops|];
            || e in d.published || OverflowedIn(c, ds, ops, e)
            || ((d.up ==> e in d.local.entries) && e in Load(c.codec, d.local.file))
  {
    RunKeepsInv(c, ds, ops);
    ShedIsOverflow(c, ds, ops, e);
  }

  /** A queue without a file keeps the promise as long as the process lives. */
  lemma MemoryQueueKeepsUntilCrash(c: Setup, ds: seq<Device>, ops: seq<Op>, e: Entry)
    requires IsRun(c, ds, ops) && Initial(c, ds[0]) && !c.persistent && !ds[|ops|].crashedOnce && e in ds[|ops|].acked
    ensures e in ds[|ops|].published || OverflowedIn(c, ds, ops, e) || e in ds[|ops|].local.entries
  {
    RunKeepsInv(c, ds, ops);
    ShedIsOverflow(c, ds, ops, e);
  }

  /** Within one process life frames are drained in the order they were added, and
      everything still queued was added after everything drained. */
  lemma DrainsFollowAddOrder(c: Setup, ds: seq<Device>, ops: seq<Op>)
    requires IsRun(c, ds, ops) && Initial(c, ds[0])
    ensures InTicketOrder(ds[|ops|].sentThisLife + ds[|ops|].local.entries)
  {
    RunKeepsInv(c, ds, ops);
  }

  /** Every add leaves at most max entries, keeps its own entry, and sheds only the
      oldest ones. */
  lemma AddShedsOnlyTheOldest(codec: Codec, persistent: bool, max: nat, l: Local, e: Entry, r: Outcome, l2: Local)
    requires AddEffect(codec, persistent, max, l, e, r, l2) && max > 0
    ensures |l2.entries| <= max && e in l2.entries
    ensures exists k :: 0 <= k <= |l.entries| && l2.entries == l.entries[k..] + [e] && (k == 0 || |l2.entries| == max)
  {
    var k := |l.entries| + 1 - |l2.entries|;
    assert l2.entries == l.entries[k..] + [e];
    assert l2.entries[|l2.entries| - 1] == e;
  }

  /** A queue rewritten successfully and reopened holds exactly what it held. */
  lemma ReopenRestores(c: Setup, l: Local, e: Entry, l2: Local)
    requires Faithful(c.codec) && c.persistent && AddEffect(c.codec, c.persistent, c.max, l, e, Nil, l2)
    ensures Load(c.codec, l2.file) == l2.entries
  {
    RewrittenLoads(c, l2.entries, l.file, l2.file, Nil);
  }
}
