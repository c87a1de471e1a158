/** `AuditLog`: a file of JSON lines in which every record carries the MAC of the one before it. */
module Audit {
  import opened Prelude

  const SEED := "0000000000000000000000000000000000000000000000000000000000000000"
  const TAIL := 20

  /** Everything in a record but its own MAC. */
  datatype Body = Body(ts: int, action: string, actor: Option<int>, result: string, project: Option<string>,
                       detail: string, previous: Option<string>)

  /** A line of the file: a JSON object with or without a `mac`, or text that is not JSON. */
  datatype Line = Record(body: Body, mac: Option<string>) | Garbage(text: string)

  /** The MAC over the canonical form of a record. */
  type Mac = Body -> string

  ghost predicate HexLength(mac: Mac) { forall b :: |mac(b)| == 64 }

  // ----- what it means for a file to verify -------------------------------------------------------

  predicate Follows(mac: Mac, previous: string, line: Line) {
    line.Record? && line.mac == Some(mac(line.body)) && line.body.previous == Some(previous)
  }

  /** The MAC that a verifying file ends in; `None` if it does not verify. */
  function EndOf(mac: Mac, lines: seq<Line>): Option<string> {
    if lines == [] then Some(SEED)
    else
      var before, last := EndOf(mac, lines[..|lines| - 1]), lines[|lines| - 1];
      if before.Some? && Follows(mac, before.value, last) then last.mac else None
  }

  lemma EndOfAppend(mac: Mac, lines: seq<Line>, line: Line)
    ensures EndOf(mac, lines + [line]) ==
            if EndOf(mac, lines).Some? && Follows(mac, EndOf(mac, lines).value, line) then line.mac else None
  {
  }

  lemma {:induction false} BrokenStaysBroken(mac: Mac, lines: seq<Line>, n: nat)
    requires n <= |lines| && EndOf(mac, lines[..n]).None?
    ensures EndOf(mac, lines).None?
    decreases |lines|
  {
    if n < |lines| {
      var m := |lines| - 1;
      assert lines[..m][..n] == lines[..n];
      BrokenStaysBroken(mac, lines[..m], n);
    } else {
      assert lines[..n] == lines;
    }
  }

  /** A line with a MAC of the right length. */
  predicate Carries(line: Line) { line.Record? && line.mac.Some? && |line.mac.value| == 64 }

  /** The MAC that a newly opened log continues from: the last well-formed one among the last lines. */
  function LastMac(lines: seq<Line>, within: nat): string {
    if lines == [] || within == 0 then SEED
    else
      var last := lines[|lines| - 1];
      if Carries(last) then last.mac.value
      else LastMac(lines[..|lines| - 1], within - 1)
  }

  lemma ReopeningContinues(mac: Mac, lines: seq<Line>)
    requires HexLength(mac) && EndOf(mac, lines).Some?
    ensures LastMac(lines, TAIL) == EndOf(mac, lines).value
  {
  }

  predicate LastToCarry(lines: seq<Line>, i: nat) {
    i < |lines| && Carries(lines[i]) && forall k :: i < k < |lines| ==> !Carries(lines[k])
  }

  lemma {:induction false} LastMacWithin(lines: seq<Line>, within: nat)
    ensures (forall i :: 0 <= i < |lines| && i >= |lines| - within ==> !Carries(lines[i])) ==>
      LastMac(lines, within) == SEED
    ensures forall i: nat :: LastToCarry(lines, i) && i >= |lines| - within ==>
      lines[i].mac == Some(LastMac(lines, within))
  {
    if lines != [] && within > 0 {
      var last := |lines| - 1;
      if Carries(lines[last]) {
        forall i: nat | LastToCarry(lines, i) ensures i == last { }
      } else {
        LastMacWithin(lines[..last], within - 1);
        forall i: nat | LastToCarry(lines, i) && i >= |lines| - within
          ensures lines[i].mac == Some(LastMac(lines, within))
        {
          assert LastToCarry(lines[..last], i);
        }
      }
    }
  }

  /** A log continues from the last MAC of 64 characters among the last twenty lines, and without one
      from 64 zeros. */
  lemma ContinuesFrom(lines: seq<Line>)
    ensures (forall i :: 0 <= i < |lines| && i >= |lines| - 20 ==> !Carries(lines[i])) ==>
      LastMac(lines, TAIL) == "0000000000000000000000000000000000000000000000000000000000000000"
    ensures forall i :: 0 <= i < |lines| && i >= |lines| - 20
                        && Carries(lines[i]) && (forall k :: i < k < |lines| ==> !Carries(lines[k])) ==>
      lines[i].mac == Some(LastMac(lines, TAIL))
  {
    LastMacWithin(lines, TAIL);
    forall i | 0 <= i < |lines| && i >= |lines| - 20
               && Carries(lines[i]) && (forall k :: i < k < |lines| ==> !Carries(lines[k]))
      ensures lines[i].mac == Some(LastMac(lines, TAIL))
    {
      assert LastToCarry(lines, i);
    }
  }

  class AuditLog {
    const mac: Mac
    const maxBytes: int
    const size: seq<Line> -> int
    const env: Environment
    var file: Option<seq<Line>>      // `None` if the file does not exist
    var rotated: Option<seq<Line>>
    var previous: string

    constructor (mac: Mac, maxBytes: int, size: seq<Line> -> int, env: Environment,
                 file: Option<seq<Line>>, rotated: Option<seq<Line>>)
      ensures this.mac == mac && this.size == size && this.env == env
      ensures this.file == file && this.rotated == rotated
      ensures this.maxBytes == if maxBytes > 100000 then maxBytes else 100000
      ensures previous == LastMac(Lines(), TAIL)
    {
      this.mac, this.size, this.env, this.file, this.rotated := mac, size, env, file, rotated;
      this.maxBytes := if maxBytes > 100000 then maxBytes else 100000;
      previous := SEED;
      new;
      if file.Some? { previous := FindLastMac(file.value); }
    }

    function Lines(): seq<Line>
      reads this
    {
      if file.Some? then file.value else []
    }

    /** Reads the last lines backwards. */
    static method FindLastMac(lines: seq<Line>) returns (found: string)
      ensures found == LastMac(lines, TAIL)
    {
      var first := if |lines| > TAIL then |lines| - TAIL else 0;
      var i := |lines|;
      assert lines[..i] == lines;
      while i > first
        invariant first <= i <= |lines|
        invariant LastMac(lines, TAIL) == LastMac(lines[..i], TAIL - (|lines| - i))
      {
        i := i - 1;
        var line := lines[i];
        assert lines[..i + 1][..i] == lines[..i];
        if line.Record? && line.mac.Some? && |line.mac.value| == 64 { return line.mac.value; }
      }
      return SEED;
    }

    method RotateIfNeeded() returns (crashed: bool, turned: bool)
      modifies this`file, this`rotated, this`previous, env
      ensures turned ==> old(file.Some? && size(file.value) >= maxBytes)
      ensures if turned then old(Full()) && file == None && rotated == old(file) && previous == SEED
              else file == old(file) && previous == old(previous)
      ensures !turned && !old(Full() && FailsNext(env.script)) ==> rotated == old(rotated)
      ensures old(Full() && FailsNext(env.script)) ==>
        !turned && rotated == if old(env.script)[0].applied then None else old(rotated)
      ensures crashed <==> old(Full() && CrashesNext(env.script))
      ensures crashed || !old(Full()) ==> !turned
      ensures !old(Full()) ==> env.script == old(env.script)
      ensures !crashed && Reliable(old(env.script)) ==> turned == old(file.Some? && size(file.value) >= maxBytes)
      ensures Keeps(old(env.script), env.script) && (Undisturbed(old(env.script)) ==> !crashed)
    {
      if !Full() { return false, false; }
      var fate := env.Next();
      if fate.Crash? { return true, false; }
      if fate.Fail? {   // the old copy may be gone already
        if fate.applied { rotated := None; }
        return false, false;
      }
      rotated, file, previous := file, None, SEED;
      return false, true;
    }

    predicate Full()
      reads this
    {
      file.Some? && size(file.value) >= maxBytes
    }

    function Snapshot(): View
      reads this
    {
      View(Lines(), previous)
    }

    /** Appends a record, after a rotation if one was due.  A write that fails is only logged; `event` is
        what became of the record. */
    method Append(ts: int, action: string, actor: Option<int>, result: string, project: string, detail: string)
      returns (record: Line, turned: bool, event: Event)
      modifies this, env
      ensures turned ==> old(Full())
      ensures var base := if turned then Next(mac, old(Snapshot()), Rotated) else old(Snapshot());
              var body := Body(ts, Prefix(action, 80), actor, Prefix(result, 40),
                               if project == "" then None else Some(Prefix(project, 64)), detail, None);
        && record == Entry(mac, body, base.previous)
        && event in [Appended(body), Unreported(body), Lost]
        && Snapshot() == Next(mac, base, event)
      ensures CrashesNext(old(env.script)) ==> !turned && event.Lost?
      ensures Undisturbed(old(env.script)) ==> event.Appended?
    {
      var crashed, rotating := RotateIfNeeded();
      turned := rotating;
      var project' := if project == "" then None else Some(Prefix(project, 64));
      var body := Body(ts, Prefix(action, 80), actor, Prefix(result, 40), project', detail, Some(previous));
      record, event := Record(body, Some(mac(body))), Lost;
      if crashed { return; }
      var fate := env.Next();
      if fate.Go? || (fate.Fail? && fate.applied) {
        file := Some((if file.Some? then file.value else []) + [record]);
        event := Unreported(body.(previous := None));
      }
      if fate.Go? {
        previous := record.mac.value;
        event := Appended(body.(previous := None));
      }
    }

    /** A record without a `mac` makes `verify` raise instead of answering. */
    method Verify() returns (out: Outcome<bool>)
      ensures out == Done(true) <==> EndOf(mac, Lines()).Some?
      ensures out.Raised? <==> exists n ::
        0 <= n < |Lines()| && EndOf(mac, Lines()[..n]).Some? && Lines()[n].Record? && Lines()[n].mac.None?
      ensures !out.Crashed? && (out.Raised? ==> out.fault == Broken)
    {
      if file.None? { return Done(true); }
      var lines, running := file.value, SEED;
      for i := 0 to |lines|
        invariant EndOf(mac, lines[..i]) == Some(running)
        invariant forall n :: 0 <= n < i ==> !(lines[n].Record? && lines[n].mac.None?)
      {
        var line := lines[i];
        assert lines[..i + 1] == lines[..i] + [line];
        EndOfAppend(mac, lines[..i], line);
        if !Follows(mac, running, line) { StopsAt(mac, lines, i); }
        if line.Garbage? { return Done(false); }
        if line.mac.None? { return Raised(Broken); }
        if line.body.previous != Some(running) { return Done(false); }
        if line.mac.value != mac(line.body) { return Done(false); }
        running := line.mac.value;
      }
      assert lines[..|lines|] == lines;
      return Done(true);
    }
  }

  /** The first line that does not follow decides. */
  lemma StopsAt(mac: Mac, lines: seq<Line>, i: nat)
    requires i < |lines| && EndOf(mac, lines[..i]).Some? && !Follows(mac, EndOf(mac, lines[..i]).value, lines[i])
    ensures EndOf(mac, lines).None?
    ensures forall n :: i < n <= |lines| ==> EndOf(mac, lines[..n]).None?
  {
    assert lines[..i + 1] == lines[..i] + [lines[i]];
    EndOfAppend(mac, lines[..i], lines[i]);
    forall n | i < n <= |lines| ensures EndOf(mac, lines[..n]).None? {
      assert lines[..n][..i + 1] == lines[..i + 1];
      BrokenStaysBroken(mac, lines[..n], i + 1);
    }
    BrokenStaysBroken(mac, lines, i + 1);
  }

  // ----- what the chain is worth -------------------------------------------------------------------

  /** An ideal MAC: no two records have the same one, and none has the value a chain starts from. */
  ghost predicate Ideal(mac: Mac) {
    (forall a, b :: mac(a) == mac(b) ==> a == b) && forall b :: mac(b) != SEED
  }

  /** Two files that verify and end in the same MAC hold the same records: nothing before a trusted MAC
      can be edited, reordered, inserted or removed, not even at the beginning of the file. */
  lemma {:induction false} SameEndSameRecords(mac: Mac, a: seq<Line>, b: seq<Line>)
    requires Ideal(mac) && EndOf(mac, a).Some? && EndOf(mac, a) == EndOf(mac, b)
    ensures a == b
    decreases |a|
  {
    if a != [] && b != [] {
      var x, y := a[|a| - 1], b[|b| - 1];
      assert mac(x.body) == mac(y.body);
      SameEndSameRecords(mac, a[..|a| - 1], b[..|b| - 1]);
      assert a == a[..|a| - 1] + [x] && b == b[..|b| - 1] + [y];
    }
  }

  /** Edits that keep the file verifying therefore change its end. */
  lemma EditChangesEnd(mac: Mac, original: seq<Line>, edited: seq<Line>)
    requires Ideal(mac) && EndOf(mac, original).Some? && edited != original
    ensures EndOf(mac, edited) != EndOf(mac, original)
  {
  }

  // ----- histories ------------------------------------------------------------------------------------

  /** The file and the MAC the log object holds. */
  datatype View = View(lines: seq<Line>, previous: string)

  /** What can happen to a log: an append that worked; one whose write failed without effect; one that
      was written although the log was told that it failed; a rotation; and a reopening, after a crash
      or not, possibly with a record that was written just before the crash. */
  datatype Event = Appended(body: Body) | Lost | Unreported(body: Body) | Rotated | Reopened(late: seq<Body>)

  function Entry(mac: Mac, body: Body, previous: string): Line {
    var b := body.(previous := Some(previous));
    Record(b, Some(mac(b)))
  }

  function Next(mac: Mac, v: View, e: Event): View {
    match e
    case Appended(body) => View(v.lines + [Entry(mac, body, v.previous)], Entry(mac, body, v.previous).mac.value)
    case Lost => v
    case Unreported(body) => View(v.lines + [Entry(mac, body, v.previous)], v.previous)
    case Rotated => View([], SEED)
    case Reopened(late) =>
      var lines := if late == [] then v.lines else v.lines + [Entry(mac, late[0], v.previous)];
      View(lines, LastMac(lines, TAIL))
  }

  function Run(mac: Mac, events: seq<Event>): View {
    if events == [] then View([], SEED) else Next(mac, Run(mac, events[..|events| - 1]), events[|events| - 1])
  }

  predicate Linked(mac: Mac, v: View) { EndOf(mac, v.lines) == Some(v.previous) }

  /** After any sequence of appends, failures without effect, rotations and reopenings, `verify` holds
      and the MAC in memory is the one the file ends in. */
  lemma {:induction false} AlwaysLinked(mac: Mac, events: seq<Event>)
    requires HexLength(mac) && forall i :: 0 <= i < |events| ==> !events[i].Unreported?
    ensures Linked(mac, Run(mac, events))
  {
    if events != [] {
      var before, e := events[..|events| - 1], events[|events| - 1];
      AlwaysLinked(mac, before);
      StepKeepsLinked(mac, Run(mac, before), e);
    }
  }

  lemma StepKeepsLinked(mac: Mac, v: View, e: Event)
    requires HexLength(mac) && Linked(mac, v) && !e.Unreported?
    ensures Linked(mac, Next(mac, v, e))
  {
  }

  /** The exception: after a record that was written but reported as failed, the file still verifies, and
      reopening the log repairs the link; but if the log goes on, the next record breaks the chain, unless
      the two MACs involved happen to be equal. */
  lemma UnreportedWrite(mac: Mac, v: View, lost: Body, next: Body)
    requires HexLength(mac) && Linked(mac, v)
    ensures var w := Next(mac, v, Unreported(lost));
      && EndOf(mac, w.lines).Some?
      && Linked(mac, Next(mac, w, Reopened([])))
      && (EndOf(mac, Next(mac, w, Appended(next)).lines).Some? <==>
            Entry(mac, lost, v.previous).mac == Some(v.previous))
  {
  }
}
