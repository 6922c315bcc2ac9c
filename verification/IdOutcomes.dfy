/**
 * packages/cli/src/anonymous_id.ts by what goes wrong: what counts as an id, when a call comes back
 * without one, and how a call runs when no other is about.
 */
module IdOutcomes {
  import opened Wrappers
  import opened Text
  import opened Trimming
  import opened AnonymousId

  // ---------------------------------------------------------------------------
  // What counts as an id
  // ---------------------------------------------------------------------------

  predicate Hex(c: char) { 48 <= c as int <= 57 || 65 <= c as int <= 70 || 97 <= c as int <= 102 }

  /** Eight, four, four, four and twelve hexadecimal digits, with dashes between them. */
  ghost predicate Uuid(s: string) {
    exists a, b, c, d, e ::
      && |a| == 8 && |b| == 4 && |c| == 4 && |d| == 4 && |e| == 12
      && AllHex(a) && AllHex(b) && AllHex(c) && AllHex(d) && AllHex(e)
      && s == a + "-" + b + "-" + c + "-" + d + "-" + e
  }

  ghost predicate AllHex(s: string) { forall k :: 0 <= k < |s| ==> Hex(s[k]) }

  lemma {:induction false} HexPart(s: string, i: nat, j: nat)
    requires IsUuid(s) && i <= j <= 36 && (j <= 8 || (9 <= i && j <= 13) || (14 <= i && j <= 18) || (19 <= i && j <= 23) || 24 <= i)
    ensures AllHex(s[i..j])
  {
    forall k | i <= k < j ensures Hex(s[k]) { assert IsHexDigit(s[k]); }
  }

  lemma {:induction false} UuidIs(s: string)
    ensures IsUuid(s) <==> Uuid(s)
  {
    if IsUuid(s) {
      HexPart(s, 0, 8);
      HexPart(s, 9, 13);
      HexPart(s, 14, 18);
      HexPart(s, 19, 23);
      HexPart(s, 24, 36);
      assert s == s[0..8] + "-" + s[9..13] + "-" + s[14..18] + "-" + s[19..23] + "-" + s[24..36];
    }
    if Uuid(s) {
      var a, b, c, d, e :|
        && |a| == 8 && |b| == 4 && |c| == 4 && |d| == 4 && |e| == 12
        && AllHex(a) && AllHex(b) && AllHex(c) && AllHex(d) && AllHex(e)
        && s == a + "-" + b + "-" + c + "-" + d + "-" + e;
      PartsAreUuid(a, b, c, d, e);
    }
  }

  lemma {:induction false} PartsAreUuid(a: string, b: string, c: string, d: string, e: string)
    requires |a| == 8 && |b| == 4 && |c| == 4 && |d| == 4 && |e| == 12
    requires AllHex(a) && AllHex(b) && AllHex(c) && AllHex(d) && AllHex(e)
    ensures IsUuid(a + "-" + b + "-" + c + "-" + d + "-" + e)
  {
    var s := a + "-" + b + "-" + c + "-" + d + "-" + e;
    assert a == s[0..8] && b == s[9..13] && c == s[14..18] && d == s[19..23] && e == s[24..36];
    assert |s| == 36 && s[8] == s[13] == s[18] == s[23] == '-';
    forall k | 0 <= k < 36 && k !in {8, 13, 18, 23} ensures IsHexDigit(s[k]) {
      if k < 8 { assert Hex(a[k]); }
      else if k < 13 { assert Hex(b[k - 9]); }
      else if k < 18 { assert Hex(c[k - 14]); }
      else if k < 23 { assert Hex(d[k - 19]); }
      else { assert Hex(e[k - 24]); }
    }
  }

  /** A file holds an id when that is all it holds but for blanks around it. */
  lemma {:induction false} StoredIs(content: string, id: string)
    ensures Stored(None) == None
    ensures Stored(Some(content)) == Some(id) <==>
              Uuid(id) && exists a, z :: Blanks(a) && Blanks(z) && content == a + id + z
  {
    hide IsUuid, Uuid, Blanks;
    UuidIs(id);
    if Stored(Some(content)) == Some(id) {
      var a := TrimStartParts(content);
      var z := TrimEndParts(TrimStart(content));
      assert content == a + id + z;
    }
    if Uuid(id) {
      forall a, z | Blanks(a) && Blanks(z) && content == a + id + z ensures Stored(Some(content)) == Some(id) {
        BlanksAround(a, id, z);
      }
    }
  }

  lemma {:induction false} BlanksAround(a: string, id: string, z: string)
    requires Blanks(a) && Blanks(z) && IsUuid(id)
    ensures Trim(a + id + z) == id
  {
    assert IsHexDigit(id[0]) && IsHexDigit(id[35]) && (id + z)[0] == id[0];
    assert a + id + z == a + (id + z);
    TrimStartIs(a, id + z);
    TrimEndIs(id, z);
  }

  // ---------------------------------------------------------------------------
  // A call that comes back without an id
  // ---------------------------------------------------------------------------

  /** The write, the link or the replacing write of the call goes wrong in this step. */
  ghost predicate LosesId(s: State, a: Action, p: Pid) {
    a.Execute? && a.pid == p && p in s.calls && !a.fault.Clean? && (s.calls[p].Writing? || s.calls[p].Linking? || s.calls[p].Replacing?)
  }

  ghost predicate LostId(ids: map<Pid, string>, file: Option<string>, schedule: seq<Action>, p: Pid) {
    schedule != [] &&
    var before := schedule[..|schedule| - 1];
    LostId(ids, file, before, p) || LosesId(Run(ids, file, before), schedule[|schedule| - 1], p)
  }

  /** Whether a call is past the point where it could still get an id. */
  predicate HasNone(s: State, p: Pid) {
    p in s.calls && ((s.calls[p].Unlinking? || s.calls[p].Done?) && s.calls[p].result.None?)
  }

  lemma {:induction false} StepLoses(ids: map<Pid, string>, s: State, a: Action, p: Pid)
    requires TempsHeld(ids, s) && p in ids
    ensures HasNone(Next(ids, s, a), p) <==> HasNone(s, p) || LosesId(s, a, p)
  {
    hide Trim, IsUuid, ContentOf;
    assert TempHeld(ids[p], s, p);
  }

  lemma {:induction false} RunLoses(ids: map<Pid, string>, file: Option<string>, schedule: seq<Action>, p: Pid)
    requires DistinctIds(ids) && p in ids
    ensures HasNone(Run(ids, file, schedule), p) <==> LostId(ids, file, schedule, p)
    decreases |schedule|
  {
    hide DistinctIds, TempsHeld, Next, HasNone, LosesId;
    if schedule == [] {
      assert !HasNone(State(file, map[], map[]), p) by { NoCalls(file, p); }
    } else {
      var before := schedule[..|schedule| - 1];
      RunLoses(ids, file, before, p);
      TempsAlways(ids, file, before);
      StepLoses(ids, Run(ids, file, before), schedule[|schedule| - 1], p);
    }
  }

  lemma {:induction false} NoCalls(file: Option<string>, p: Pid)
    ensures !HasNone(State(file, map[], map[]), p)
  {
  }

  /**
   * However the calls interleave, one that is over returns no id exactly when its write, its link
   * or its replacing write went wrong; failing reads and unlinks cost it nothing.
   */
  lemma {:induction false} NoIdIff(ids: map<Pid, string>, file: Option<string>, schedule: seq<Action>, p: Pid)
    requires DistinctIds(ids)
    requires var s := Run(ids, file, schedule); p in s.calls && s.calls[p].Done?
    ensures AnonymousId.Returns(Run(ids, file, schedule), p).None? <==> LostId(ids, file, schedule, p)
  {
    hide DistinctIds, LostId, Run;
    CallsAreKnown(ids, file, schedule, p);
    RunLoses(ids, file, schedule, p);
  }

  // ---------------------------------------------------------------------------
  // A call on its own
  // ---------------------------------------------------------------------------

  /** How the next statement of the call goes. */
  function NextFault(pc: Pc, f: Faults): Fault {
    match pc
    case Reading => f.read
    case Writing => f.write
    case Linking => f.link
    case ReadingWinner => f.reread
    case Replacing => f.replace
    case Unlinking(_) => f.unlink
    case Done(_) => Clean
  }

  function Step(id: string, s: State, f: Faults): State {
    if 0 in s.calls then Execution(id, s, 0, NextFault(s.calls[0], f)) else s
  }

  /** One call, about to execute `pc`. */
  function On(file: Option<string>, temps: map<string, string>, pc: Pc): State { State(file, temps, map[0 := pc]) }

  /** One call, from its first read on: it has at most six statements. */
  function Alone(id: string, file: Option<string>, f: Faults): State {
    Step(id, Step(id, Step(id, Step(id, Step(id, Step(id, On(file, map[], Reading), f), f), f), f), f), f)
  }

  function Found(file: Option<string>, fault: Fault): Option<string> { if fault.Clean? then Stored(file) else None }

  lemma {:induction false} StepIs(id: string, file: Option<string>, temps: map<string, string>, pc: Pc, f: Faults)
    requires (pc.Writing? ==> id !in temps) && (pc.Linking? ==> id in temps && temps[id] == ContentOf(id))
    ensures Step(id, On(file, temps, pc), f)
         == match pc
            case Reading => On(file, temps, if Found(file, f.read).Some? then Done(Found(file, f.read)) else Writing)
            case Writing =>
              On(file, match f.write case Clean => temps[id := id + "\n"] case Torn(part) => temps[id := part] case Fails => temps,
                 if f.write.Clean? then Linking else Done(None))
            case Linking =>
              if f.link.Clean? && file.None? then On(Some(id + "\n"), temps, Unlinking(Some(id)))
              else On(file, temps, if f.link.Clean? then ReadingWinner else Unlinking(None))
            case ReadingWinner =>
              On(file, temps, if Found(file, f.reread).Some? then Unlinking(Found(file, f.reread)) else Replacing)
            case Replacing =>
              if f.replace.Clean? then On(Some(id + "\n"), temps, Unlinking(Some(id))) else On(file, temps, Unlinking(None))
            case Unlinking(result) => On(file, if f.unlink.Clean? then temps - {id} else temps, Done(result))
            case Done(_) => On(file, temps, pc)
  {
    hide Stored;
    assert forall next :: Goto(On(file, temps, pc), 0, next) == On(file, temps, next);
  }

  /** How the call ends from the link on, with its temporary file complete. */
  function Linked(id: string, file: Option<string>, f: Faults): (Option<string>, Option<string>) {
    if !f.link.Clean? then (file, None)
    else if file.None? then (Some(id + "\n"), Some(id))
    else if Found(file, f.reread).Some? then (file, Found(file, f.reread))
    else if f.replace.Clean? then (Some(id + "\n"), Some(id)) else (file, None)
  }

  lemma {:induction false} LinkedIs(id: string, file: Option<string>, f: Faults)
    ensures Step(id, Step(id, Step(id, Step(id, On(file, map[id := id + "\n"], Linking), f), f), f), f)
         == On(Linked(id, file, f).0, if f.unlink.Clean? then map[] else map[id := id + "\n"], Done(Linked(id, file, f).1))
  {
    hide Step, Found, On;
    var temps := map[id := id + "\n"];
    var (file2, r) := Linked(id, file, f);
    assert temps - {id} == map[];
    var left := if f.unlink.Clean? then map[] else temps;
    StepIs(id, file, temps, Linking, f);
    StepIs(id, file, temps, ReadingWinner, f);
    StepIs(id, file, temps, Replacing, f);
    StepIs(id, file2, temps, Unlinking(r), f);
    StepIs(id, file2, left, Done(r), f);
  }

  /**
   * The statements of one call with no other about: the stored id, if it can be read; else a
   * temporary file, and the id linked, adopted or put in place of what holds none.
   */
  lemma {:induction false} AloneIs(id: string, file: Option<string>, f: Faults)
    ensures Alone(id, file, f)
         == if Found(file, f.read).Some? then On(file, map[], Done(Found(file, f.read)))
            else if f.write.Fails? then On(file, map[], Done(None))
            else if f.write.Torn? then On(file, map[id := f.write.written], Done(None))
            else On(Linked(id, file, f).0, if f.unlink.Clean? then map[] else map[id := id + "\n"], Done(Linked(id, file, f).1))
  {
    hide Step, Found, On, Linked;
    StepIs(id, file, map[], Reading, f);
    if Found(file, f.read).Some? {
      StepIs(id, file, map[], Done(Found(file, f.read)), f);
    } else {
      StepIs(id, file, map[], Writing, f);
      match f.write {
        case Clean => LinkedIs(id, file, f);
        case Torn(part) => StepIs(id, file, map[id := part], Done(None), f);
        case Fails => StepIs(id, file, map[], Done(None), f);
      }
    }
  }
}
