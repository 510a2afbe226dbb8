/**
 * Labelling the units of a document and reading the labels back. A reply gives each unit, by its id,
 * the component it belongs to; the units are recorded component by component, and a later pass looks
 * up the component of a unit from what was recorded.
 */
module Labeling {
  import opened Options
  import opened Segments
  import opened StringOrder
  import opened Units
  import Batches
  import Sorting
  import Text

  /** A component a unit can be given; the signature is put together afterwards. */
  type Given = k: Key | k != Signature witness NoiDung

  /**
   * What labelling starts from: the reply (None for a label that is no component) and the type of
   * document it names, the hints of an earlier pass, the ids left out of the question, the units'
   * texts, the paragraphs' alignment, and the test that reads the type off two components.
   */
  datatype Task = Task(reply: map<string, Option<Given>>, docType: string, hint: Unit -> Option<Given>,
                       elided: set<string>, text: Unit -> string, rightish: nat -> bool, flushLeft: nat -> bool,
                       types: set<string>, detect: (string, string) -> string)

  const UNKNOWN := "unknown"

  function HintOr(task: Task, u: Unit): Given {
    match task.hint(u)
    case Some(k) => k
    case None => NoiDung
  }

  function Resolve(task: Task, u: Unit): Given {
    var id := Id(u);
    if id !in task.reply then (if id in task.elided then NoiDung else HintOr(task, u))
    else match task.reply[id]
      case Some(k) => k
      case None => HintOr(task, u)
  }

  function EffectiveZone(task: Task, u: Unit): Zone {
    if ZoneOf(u) != Full then ZoneOf(u)
    else if task.rightish(u.para) then Right
    else if task.flushLeft(u.para) then Left
    else Full
  }

  function RecordOf(task: Task, u: Unit, pos: nat): Record {
    Record(Resolve(task, u), u.para, task.text(u), EffectiveZone(task, u), Some(pos), LineOfId(Id(u)))
  }

  /** What a pass over the first n units collects. */
  function Collect<T>(pick: (Unit, nat) -> Option<T>, units: seq<Unit>, n: nat): seq<T>
    requires n <= |units|
  {
    if n == 0 then []
    else
      var before := Collect(pick, units, n - 1);
      match pick(units[n - 1], n - 1)
      case Some(x) => before + [x]
      case None => before
  }

  /** A unit labelled "khac" leaves no record. */
  function ToRecord(task: Task): (Unit, nat) -> Option<Record> {
    (u: Unit, pos: nat) => if Resolve(task, u) == Khac then None else Some(RecordOf(task, u, pos))
  }

  function ToBody(task: Task): (Unit, nat) -> Option<nat> {
    (u: Unit, pos: nat) => if Resolve(task, u) == NoiDung then Some(u.para) else None
  }

  /** The ids the reply left out, and those it gave no component. */
  function ToMissing(task: Task): (Unit, nat) -> Option<string> {
    (u: Unit, pos: nat) => if Id(u) !in task.reply && Id(u) !in task.elided then Some(Id(u)) else None
  }

  function ToInvalid(task: Task): (Unit, nat) -> Option<string> {
    (u: Unit, pos: nat) => if Id(u) in task.reply && task.reply[Id(u)].None? then Some(Id(u)) else None
  }

  /** A unit whose label is not the one hinted at. */
  datatype Disagreement = Disagreement(id: string, given: Given, hint: Given)

  function ToDisagreement(task: Task): (Unit, nat) -> Option<Disagreement> {
    (u: Unit, pos: nat) =>
      if task.hint(u).Some? && Resolve(task, u) != task.hint(u).value && Id(u) !in task.elided
      then Some(Disagreement(Id(u), Resolve(task, u), task.hint(u).value)) else None
  }

  /** What is reported about a reply. */
  datatype Diagnosis = Diagnosis(missing: seq<string>, invalid: seq<string>, disagreements: seq<Disagreement>)

  function DiagnosisOf(task: Task, units: seq<Unit>, n: nat): Diagnosis
    requires n <= |units|
  {
    Diagnosis(Collect(ToMissing(task), units, n), Collect(ToInvalid(task), units, n),
              Collect(ToDisagreement(task), units, n))
  }

  function Records(task: Task, units: seq<Unit>): seq<Record> {
    Collect(ToRecord(task), units, |units|)
  }

  /** The signature block as a component of its own, once its parts are known. */
  function WithSignature(st: State, signature: Component): State {
    if ChucDanh !in st.comps && NguoiKy !in st.comps then st
    else st.(order := if Signature in st.comps then st.order else st.order + [Signature],
             comps := st.comps[Signature := signature])
  }

  method AddSignature(seg: Segmented, signature: Component)
    modifies seg`order, seg`comps
    ensures seg.Now() == WithSignature(old(seg.Now()), signature)
  {
    if ChucDanh in seg.comps || NguoiKy in seg.comps {
      if Signature !in seg.comps { seg.order := seg.order + [Signature]; }
      seg.comps := seg.comps[Signature := signature];
    }
  }

  /** The label of a unit, with a note of what the reply failed on or saw differently. */
  method Decide(task: Task, u: Unit, ghost pos: nat, diag0: Diagnosis) returns (lab: Given, diag: Diagnosis)
    ensures lab == Resolve(task, u)
    ensures diag == Diagnosis(diag0.missing + OneOrNone(ToMissing(task)(u, pos)),
                              diag0.invalid + OneOrNone(ToInvalid(task)(u, pos)),
                              diag0.disagreements + OneOrNone(ToDisagreement(task)(u, pos)))
  {
    var id := Id(u);
    lab, diag := NoiDung, diag0;
    if id !in task.reply {
      if id !in task.elided {
        diag := diag.(missing := diag.missing + [id]);
        lab := HintOr(task, u);
      }
    } else if task.reply[id].None? {
      diag := diag.(invalid := diag.invalid + [id]);
      lab := HintOr(task, u);
    } else {
      lab := task.reply[id].value;
    }
    var hint := task.hint(u);
    if hint.Some? && lab != hint.value && id !in task.elided {
      diag := diag.(disagreements := diag.disagreements + [Disagreement(id, lab, hint.value)]);
    }
  }

  function OneOrNone<T>(x: Option<T>): seq<T> {
    if x.Some? then [x.value] else []
  }

  lemma CollectNext<T>(pick: (Unit, nat) -> Option<T>, units: seq<Unit>, n: nat)
    requires n < |units|
    ensures Collect(pick, units, n + 1) == Collect(pick, units, n) + OneOrNone(pick(units[n], n))
  {
  }

  method RecordUnit(seg: Segmented, task: Task, u: Unit, pos: nat, lab: Given)
    requires lab == Resolve(task, u)
    modifies seg
    ensures seg.Now() == match ToRecord(task)(u, pos)
                         case None => old(seg.Now())
                         case Some(r) => Recording(old(seg.Now()), r)
    ensures seg.body == old(seg.body) + OneOrNone(ToBody(task)(u, pos))
  {
    if lab == Khac { return; }
    seg.Add(lab, u.para, task.text(u), EffectiveZone(task, u), Some(pos), LineOfId(Id(u)));
    if lab == NoiDung { seg.body := seg.body + [u.para]; }
  }

  lemma RunNext(make: (Unit, nat) -> Option<Record>, units: seq<Unit>, n: nat)
    requires n < |units|
    ensures Run(Collect(make, units, n + 1))
         == match make(units[n], n)
            case None => Run(Collect(make, units, n))
            case Some(r) => Recording(Run(Collect(make, units, n)), r)
  {
    var before := Collect(make, units, n);
    if make(units[n], n).Some? {
      assert (before + [make(units[n], n).value])[..|before|] == before;
    }
  }

  ghost predicate LabelledTo(seg: Segmented, task: Task, units: seq<Unit>, n: nat)
    requires n <= |units|
    reads seg
  {
    seg.Now() == Run(Collect(ToRecord(task), units, n)) && seg.body == Collect(ToBody(task), units, n)
  }

  method LabelUnit(seg: Segmented, task: Task, units: seq<Unit>, pos: nat, diag0: Diagnosis)
    returns (diag: Diagnosis)
    requires pos < |units| && LabelledTo(seg, task, units, pos)
    requires diag0 == DiagnosisOf(task, units, pos)
    modifies seg
    ensures LabelledTo(seg, task, units, pos + 1)
    ensures diag == DiagnosisOf(task, units, pos + 1)
  {
    CollectNext(ToMissing(task), units, pos);
    CollectNext(ToInvalid(task), units, pos);
    CollectNext(ToDisagreement(task), units, pos);
    CollectNext(ToBody(task), units, pos);
    RunNext(ToRecord(task), units, pos);
    var lab;
    lab, diag := Decide(task, units[pos], pos, diag0);
    RecordUnit(seg, task, units[pos], pos, lab);
  }

  // ----- ids that are no unit's -----

  /** The ids the reply names that no unit has, in order, once each. */
  ghost predicate AreUnknown(ids: seq<string>, task: Task, units: seq<Unit>) {
    && (forall id :: id in ids <==> id in task.reply && forall u :: u in units ==> Id(u) != id)
    && Batches.AllDifferent(ids) && Sorting.Sorted(UpTo, ids)
  }

  method UnknownIds(task: Task, units: seq<Unit>) returns (ids: seq<string>)
    ensures AreUnknown(ids, task, units)
  {
    var todo := task.reply.Keys;
    for i := 0 to |units|
      invariant forall id :: id in todo <==> id in task.reply && forall k :: 0 <= k < i ==> Id(units[k]) != id
    {
      todo := todo - {Id(units[i])};
    }
    var all := todo;
    var found: seq<string> := [];
    while todo != {}
      invariant todo <= all && (forall id :: id in found <==> id in all && id !in todo)
      invariant Batches.AllDifferent(found)
      decreases |todo|
    {
      var id :| id in todo;
      found, todo := found + [id], todo - {id};
    }
    ids := Sorting.Sort(UpTo, found);
    UpToIsOrder();
    Sorting.SortSorts(UpTo, found);
    Batches.RearrangedStayDifferent(found, ids);
  }

  // ----- the type of the document -----

  function TextUnder(st: State, key: Key): string {
    if key in st.comps then st.comps[key].text else ""
  }

  /** What the labelled text says; only where it says nothing the reply, if it names a type there is. */
  function TypeOf(task: Task, subject: string, number: string): string {
    var structural := task.detect(subject, number);
    if structural != UNKNOWN then structural
    else if task.docType in task.types then task.docType
    else UNKNOWN
  }

  /** What was recorded under a component is its text. */
  lemma TextIsRecorded(rs: seq<Record>, signature: Component, key: Key)
    requires key != Signature
    ensures TextUnder(WithSignature(Run(rs), signature), key) == Text.Join(TextsOf(rs, key), "\n")
  {
    RunIsExact(rs);
    if key !in Run(rs).comps { NoTexts(rs, key); }
  }

  lemma {:induction false} NoTexts(rs: seq<Record>, key: Key)
    requires !Recorded(rs, key)
    ensures TextsOf(rs, key) == []
  {
    if rs != [] {
      var init := rs[..|rs| - 1];
      assert rs[|rs| - 1].key != key;
      forall i | 0 <= i < |init| ensures init[i].key != key {
        assert init[i] == rs[i];
      }
      NoTexts(init, key);
    }
  }

  method ApplyLabels(task: Task, units: seq<Unit>, signature: Component)
    returns (seg: Segmented, diag: Diagnosis, unknown: seq<string>, docType: string, overruled: bool)
    ensures fresh(seg)
    ensures seg.Now() == WithSignature(Run(Records(task, units)), signature)
    ensures seg.body == Collect(ToBody(task), units, |units|)
    ensures diag == DiagnosisOf(task, units, |units|) && AreUnknown(unknown, task, units)
    ensures var rs := Records(task, units);
      docType == TypeOf(task, Text.Join(TextsOf(rs, TrichYeu), "\n"), Text.Join(TextsOf(rs, SoKyHieu), "\n"))
    ensures overruled <==> task.docType != "" && task.docType != docType
  {
    unknown := UnknownIds(task, units);
    seg := new Segmented();
    diag := Diagnosis([], [], []);
    var pos := 0;
    while pos < |units|
      invariant pos <= |units| && fresh(seg)
      invariant LabelledTo(seg, task, units, pos)
      invariant diag == DiagnosisOf(task, units, pos)
    {
      diag := LabelUnit(seg, task, units, pos, diag);
      pos := pos + 1;
    }
    docType, overruled := Conclude(seg, task, Records(task, units), signature);
  }

  method Conclude(seg: Segmented, task: Task, ghost rs: seq<Record>, signature: Component)
    returns (docType: string, overruled: bool)
    requires seg.Now() == Run(rs)
    modifies seg`order, seg`comps
    ensures seg.Now() == WithSignature(Run(rs), signature)
    ensures docType == TypeOf(task, Text.Join(TextsOf(rs, TrichYeu), "\n"), Text.Join(TextsOf(rs, SoKyHieu), "\n"))
    ensures overruled <==> task.docType != "" && task.docType != docType
  {
    AddSignature(seg, signature);
    TextIsRecorded(rs, signature, TrichYeu);
    TextIsRecorded(rs, signature, SoKyHieu);
    docType, overruled := Decided(task, TextUnder(seg.Now(), TrichYeu), TextUnder(seg.Now(), SoKyHieu));
  }

  method Decided(task: Task, subject: string, number: string) returns (docType: string, overruled: bool)
    ensures docType == TypeOf(task, subject, number)
    ensures overruled <==> task.docType != "" && task.docType != docType
  {
    docType := UNKNOWN;
    var structural := task.detect(subject, number);
    if structural != UNKNOWN {
      docType := structural;
    } else if task.docType in task.types {
      docType := task.docType;
    }
    overruled := task.docType != "" && task.docType != docType;
  }

  // ----- reading a label back -----

  /** How well a component answers for a unit: not at all, in another zone only, or fully. */
  datatype Hit = No | Weak | Strong

  predicate OtherLines(c: Component, para: nat, line: Option<nat>) {
    line.Some? && Lines(c.subs, para) != [] && line.value !in Lines(c.subs, para)
  }

  predicate ZoneFits(c: Component, i: nat, zone: Zone) {
    i >= |c.zones| || c.zones[i] == zone || zone == Full
  }

  function HitFrom(c: Component, para: nat, zone: Zone, line: Option<nat>, i: nat): Hit
    requires i <= |c.paras|
    decreases |c.paras| - i
  {
    if i == |c.paras| then No
    else if c.paras[i] != para || OtherLines(c, para, line) then HitFrom(c, para, zone, line, i + 1)
    else if ZoneFits(c, i, zone) || HitFrom(c, para, zone, line, i + 1) == Strong then Strong
    else Weak
  }

  function ReadFrom(st: State, para: nat, zone: Zone, line: Option<nat>, i: nat, found: Option<Key>): Option<Key>
    requires i <= |st.order|
    decreases |st.order| - i
  {
    if i == |st.order| then found
    else
      var key := st.order[i];
      if key == Signature || key !in st.comps then ReadFrom(st, para, zone, line, i + 1, found)
      else match HitFrom(st.comps[key], para, zone, line, 0)
        case Strong => Some(key)
        case Weak => ReadFrom(st, para, zone, line, i + 1, if found.Some? then found else Some(key))
        case No => ReadFrom(st, para, zone, line, i + 1, found)
  }

  /** The component under which a unit was recorded, if any. */
  function LabelOf(st: State, u: Unit): Option<Key> {
    ReadFrom(st, u.para, ZoneOf(u), LineOf(u), 0, None)
  }

  method FindHit(c: Component, para: nat, zone: Zone, line: Option<nat>) returns (hit: Hit)
    ensures hit == HitFrom(c, para, zone, line, 0)
  {
    hit := No;
    var i := 0;
    while i < |c.paras|
      invariant i <= |c.paras| && hit != Strong
      invariant HitFrom(c, para, zone, line, 0)
             == if HitFrom(c, para, zone, line, i) == No then hit
                else if hit == Weak && HitFrom(c, para, zone, line, i) == Weak then Weak
                else HitFrom(c, para, zone, line, i)
    {
      if c.paras[i] == para && !OtherLines(c, para, line) {
        if ZoneFits(c, i, zone) { return Strong; }
        hit := Weak;
      }
      i := i + 1;
    }
  }

  method HeuristicLabel(seg: Segmented, para: nat, zone: Zone, line: Option<nat>) returns (found: Option<Key>)
    ensures found == ReadFrom(seg.Now(), para, zone, line, 0, None)
  {
    found := None;
    var i := 0;
    while i < |seg.order|
      invariant i <= |seg.order|
      invariant ReadFrom(seg.Now(), para, zone, line, 0, None) == ReadFrom(seg.Now(), para, zone, line, i, found)
    {
      var key := seg.order[i];
      i := i + 1;
      if key == Signature || key !in seg.comps { continue; }
      var hit := FindHit(seg.comps[key], para, zone, line);
      if hit == Strong { return Some(key); }
      if hit == Weak && found.None? { found := Some(key); }
    }
  }

  // ----- every label comes back -----

  lemma {:induction false} HitMisses(c: Component, para: nat, zone: Zone, line: Option<nat>, i: nat)
    requires i <= |c.paras|
    requires (forall j :: i <= j < |c.paras| ==> c.paras[j] != para) || OtherLines(c, para, line)
    ensures HitFrom(c, para, zone, line, i) == No
    decreases |c.paras| - i
  {
    if i < |c.paras| { HitMisses(c, para, zone, line, i + 1); }
  }

  lemma {:induction false} HitFinds(c: Component, para: nat, zone: Zone, line: Option<nat>, i: nat, j: nat)
    requires Distinct(c.paras) && |c.zones| == |c.paras|
    requires i <= j < |c.paras| && c.paras[j] == para && !OtherLines(c, para, line)
    ensures HitFrom(c, para, zone, line, i) == if c.zones[j] == zone || zone == Full then Strong else Weak
    decreases j - i
  {
    if i < j {
      HitFinds(c, para, zone, line, i + 1, j);
    } else {
      HitMisses(c, para, zone, line, i + 1);
    }
  }

  /** The hit in terms of what was recorded under the component's name. */
  lemma HitOfRecorded(c: Component, rs: seq<Record>, key: Key, para: nat, zone: Zone, line: Option<nat>)
    requires Reflects(c, rs, key)
    ensures HitFrom(c, para, zone, line, 0)
         == match FirstZone(rs, key, para)
            case None => No
            case Some(z) => if OtherLines(c, para, line) then No
                            else if z == zone || zone == Full then Strong
                            else Weak
  {
    if FirstZone(rs, key, para).None? || OtherLines(c, para, line) {
      HitMisses(c, para, zone, line, 0);
    } else {
      assert para in c.paras;
      var j :| 0 <= j < |c.paras| && c.paras[j] == para;
      HitFinds(c, para, zone, line, 0, j);
    }
  }

  function HitAt(st: State, para: nat, zone: Zone, line: Option<nat>, key: Key): Hit {
    if key == Signature || key !in st.comps then No else HitFrom(st.comps[key], para, zone, line, 0)
  }

  /** The label read is a component that answers fully, if there is just one, or the only one that answers. */
  lemma {:induction false} ReadFinds(st: State, para: nat, zone: Zone, line: Option<nat>, lab: Key, i: nat, j: nat,
                                     found: Option<Key>)
    requires i <= j < |st.order| && st.order[j] == lab
    requires HitAt(st, para, zone, line, lab) == Strong
    requires forall key :: key != lab ==> HitAt(st, para, zone, line, key) != Strong
    ensures ReadFrom(st, para, zone, line, i, found) == Some(lab)
    decreases j - i
  {
    if st.order[i] != lab {
      assert HitAt(st, para, zone, line, st.order[i]) != Strong;
      var next := if HitAt(st, para, zone, line, st.order[i]) == Weak && found.None? then Some(st.order[i]) else found;
      ReadFinds(st, para, zone, line, lab, i + 1, j, next);
    }
  }

  lemma {:induction false} ReadFindsOnly(st: State, para: nat, zone: Zone, line: Option<nat>, lab: Key, i: nat,
                                         found: Option<Key>)
    requires i <= |st.order|
    requires HitAt(st, para, zone, line, lab) == Weak
    requires forall key :: key != lab ==> HitAt(st, para, zone, line, key) == No
    requires found == Some(lab) || (found == None && lab in st.order[i..])
    ensures ReadFrom(st, para, zone, line, i, found) == Some(lab)
    decreases |st.order| - i
  {
    if i < |st.order| {
      assert HitAt(st, para, zone, line, st.order[i]) == if st.order[i] == lab then Weak else No;
      ReadFindsOnly(st, para, zone, line, lab, i + 1, if st.order[i] == lab then Some(lab) else found);
    }
  }

  lemma {:induction false} FirstZoneComesFrom(rs: seq<Record>, key: Key, para: nat) returns (i: nat)
    requires FirstZone(rs, key, para).Some?
    ensures i < |rs| && Concerns(rs[i], key, para) && FirstZone(rs, key, para) == Some(rs[i].zone)
  {
    var n := |rs| - 1;
    if FirstZone(rs[..n], key, para).Some? {
      i := FirstZoneComesFrom(rs[..n], key, para);
    } else {
      i := n;
    }
  }

  lemma {:induction false} MemberHasZone(rs: seq<Record>, i: nat)
    requires i < |rs|
    ensures FirstZone(rs, rs[i].key, rs[i].para).Some?
  {
    var n := |rs| - 1;
    if i < n { MemberHasZone(rs[..n], i); }
  }

  lemma {:induction false} CollectedComesFrom<T>(pick: (Unit, nat) -> Option<T>, units: seq<Unit>, n: nat, i: nat)
    returns (j: nat)
    requires n <= |units| && i < |Collect(pick, units, n)|
    ensures j < n && pick(units[j], j) == Some(Collect(pick, units, n)[i])
    decreases n
  {
    if i < |Collect(pick, units, n - 1)| {
      j := CollectedComesFrom(pick, units, n - 1, i);
    } else {
      j := n - 1;
    }
  }

  lemma {:induction false} PickedIsCollected<T>(pick: (Unit, nat) -> Option<T>, units: seq<Unit>, n: nat, j: nat)
    returns (i: nat)
    requires j < n <= |units| && pick(units[j], j).Some?
    ensures i < |Collect(pick, units, n)| && pick(units[j], j) == Some(Collect(pick, units, n)[i])
    decreases n
  {
    if j < n - 1 {
      i := PickedIsCollected(pick, units, n - 1, j);
    } else {
      i := |Collect(pick, units, n - 1)|;
    }
  }

  /**
   * The records made from units: `give` is the component a unit is given, `eff` the zone it is recorded
   * in, which is its own unless the unit spans the page.
   */
  ghost predicate Makes(make: (Unit, nat) -> Option<Record>, give: Unit -> Key, eff: Unit -> Zone) {
    && (forall u, pos :: make(u, pos).Some? <==> give(u) != Khac)
    && (forall u, pos :: make(u, pos).Some? ==>
                           && make(u, pos).value.key == give(u)
                           && make(u, pos).value.para == u.para
                           && make(u, pos).value.zone == eff(u)
                           && make(u, pos).value.line == LineOf(u))
    && (forall u :: ZoneOf(u) != Full ==> eff(u) == ZoneOf(u))
  }

  function Giving(task: Task): Unit -> Key {
    u => Resolve(task, u)
  }

  function Reading(task: Task): Unit -> Zone {
    u => EffectiveZone(task, u)
  }

  lemma RecordIsMade(task: Task, u: Unit, pos: nat)
    ensures var r := ToRecord(task)(u, pos);
      && (r.Some? <==> Resolve(task, u) != Khac)
      && (r.Some? ==> r.value.key == Resolve(task, u) && r.value.para == u.para
                      && r.value.zone == EffectiveZone(task, u) && r.value.line == LineOf(u))
  {
    LineIsReadFromId(u);
  }

  lemma TaskMakes(task: Task)
    ensures Makes(ToRecord(task), Giving(task), Reading(task))
  {
    forall u, pos
      ensures var r := ToRecord(task)(u, pos);
        && (r.Some? <==> Giving(task)(u) != Khac)
        && (r.Some? ==> r.value.key == Giving(task)(u) && r.value.para == u.para
                        && r.value.zone == Reading(task)(u) && r.value.line == LineOf(u))
    {
      RecordIsMade(task, u, pos);
    }
  }

  /** A paragraph's zone in a component is that of some unit recorded there. */
  lemma ZoneHasUnit(make: (Unit, nat) -> Option<Record>, give: Unit -> Key, eff: Unit -> Zone, units: seq<Unit>,
                    key: Key, para: nat)
    returns (j: nat)
    requires Makes(make, give, eff)
    requires FirstZone(Collect(make, units, |units|), key, para).Some?
    ensures j < |units| && units[j].para == para && give(units[j]) == key != Khac
    ensures FirstZone(Collect(make, units, |units|), key, para) == Some(eff(units[j]))
  {
    var i := FirstZoneComesFrom(Collect(make, units, |units|), key, para);
    j := CollectedComesFrom(make, units, |units|, i);
  }

  lemma LineHasUnit(make: (Unit, nat) -> Option<Record>, give: Unit -> Key, eff: Unit -> Zone, units: seq<Unit>,
                    key: Key, para: nat, k: nat)
    returns (j: nat)
    requires Makes(make, give, eff)
    requires LineRecorded(Collect(make, units, |units|), key, para, k)
    ensures j < |units| && units[j].para == para && give(units[j]) == key && LineOf(units[j]) == Some(k)
  {
    var rs := Collect(make, units, |units|);
    var i :| 0 <= i < |rs| && Concerns(rs[i], key, para) && rs[i].line == Some(k);
    j := CollectedComesFrom(make, units, |units|, i);
  }

  lemma UnitIsRecorded(make: (Unit, nat) -> Option<Record>, give: Unit -> Key, eff: Unit -> Zone, units: seq<Unit>,
                       j: nat)
    requires Makes(make, give, eff)
    requires j < |units| && give(units[j]) != Khac
    ensures var rs, key, u := Collect(make, units, |units|), give(units[j]), units[j];
      && Recorded(rs, key) && FirstZone(rs, key, u.para).Some?
      && (u.place.Line? ==> LineRecorded(rs, key, u.para, u.place.k))
  {
    var rs := Collect(make, units, |units|);
    var i := PickedIsCollected(make, units, |units|, j);
    MemberHasZone(rs, i);
    assert rs[i].key == give(units[j]);
  }

  /** A line is recorded only under the component its unit was given. */
  lemma LineBelongs(make: (Unit, nat) -> Option<Record>, give: Unit -> Key, eff: Unit -> Zone, units: seq<Unit>,
                    i: nat, key: Key)
    requires Makes(make, give, eff) && Coherent(units)
    requires i < |units| && units[i].place.Line?
    requires LineRecorded(Collect(make, units, |units|), key, units[i].para, units[i].place.k)
    ensures give(units[i]) == key
  {
    var m := LineHasUnit(make, give, eff, units, key, units[i].para, units[i].place.k);
    assert units[m].place.Line? && units[m].place.k == units[i].place.k;
  }

  /** The unit that a paragraph's zone in a component comes from, seen from another of its units. */
  lemma Kin(make: (Unit, nat) -> Option<Record>, give: Unit -> Key, eff: Unit -> Zone, units: seq<Unit>,
            i: nat, key: Key)
    returns (j: nat)
    requires Makes(make, give, eff) && Coherent(units) && i < |units|
    requires FirstZone(Collect(make, units, |units|), key, units[i].para).Some?
    ensures j < |units| && units[j].para == units[i].para && give(units[j]) == key != Khac
    ensures FirstZone(Collect(make, units, |units|), key, units[i].para) == Some(eff(units[j]))
    ensures ZoneOf(units[j]) != Full ==> eff(units[j]) == ZoneOf(units[j])
    ensures j == i || Siblings(units[i].place, units[j].place)
  {
    j := ZoneHasUnit(make, give, eff, units, key, units[i].para);
  }

  /** A component that holds lines of the paragraph passes over every line it was not given. */
  lemma LinesAreKnown(make: (Unit, nat) -> Option<Record>, give: Unit -> Key, eff: Unit -> Zone, units: seq<Unit>,
                      c: Component, i: nat, key: Key)
    requires Makes(make, give, eff) && Coherent(units)
    requires Reflects(c, Collect(make, units, |units|), key)
    requires i < |units| && units[i].place.Line?
    requires FirstZone(Collect(make, units, |units|), key, units[i].para).Some?
    ensures OtherLines(c, units[i].para, LineOf(units[i])) <==> give(units[i]) != key
  {
    var u, rs := units[i], Collect(make, units, |units|);
    var j := Kin(make, give, eff, units, i, key);
    UnitIsRecorded(make, give, eff, units, j);
    assert units[j].place.k in Lines(c.subs, u.para);
    assert u.place.k in Lines(c.subs, u.para) <==> LineRecorded(rs, key, u.para, u.place.k);
    if LineRecorded(rs, key, u.para, u.place.k) { LineBelongs(make, give, eff, units, i, key); }
    if give(u) == key { UnitIsRecorded(make, give, eff, units, i); }
  }

  /** How the component recorded under a name answers for a unit. */
  lemma ComponentHit(make: (Unit, nat) -> Option<Record>, give: Unit -> Key, eff: Unit -> Zone, units: seq<Unit>,
                     c: Component, i: nat, key: Key)
    requires Makes(make, give, eff) && Coherent(units)
    requires Reflects(c, Collect(make, units, |units|), key)
    requires i < |units|
    ensures var u := units[i]; var hit := HitFrom(c, u.para, ZoneOf(u), LineOf(u), 0);
      match FirstZone(Collect(make, units, |units|), key, u.para)
      case None => hit == No
      case Some(z) => if u.place.Line? && give(u) != key then hit == No
                      else hit == if z == ZoneOf(u) || ZoneOf(u) == Full then Strong else Weak
  {
    var u, rs := units[i], Collect(make, units, |units|);
    HitOfRecorded(c, rs, key, u.para, ZoneOf(u), LineOf(u));
    if u.place.Line? && FirstZone(rs, key, u.para).Some? {
      LinesAreKnown(make, give, eff, units, c, i, key);
    }
  }

  ghost predicate OtherColumnGiven(give: Unit -> Key, units: seq<Unit>, i: nat, key: Key)
    requires i < |units|
  {
    exists j :: 0 <= j < |units| && j != i && units[j].para == units[i].para && give(units[j]) == key
  }

  /** Of another component that answers at all, only the other column can be the reason. */
  lemma OtherComponent(make: (Unit, nat) -> Option<Record>, give: Unit -> Key, eff: Unit -> Zone, units: seq<Unit>,
                       c: Component, i: nat, key: Key)
    requires Makes(make, give, eff) && Coherent(units)
    requires Reflects(c, Collect(make, units, |units|), key)
    requires i < |units| && key != give(units[i])
    ensures var u := units[i]; var hit := HitFrom(c, u.para, ZoneOf(u), LineOf(u), 0);
      hit == No || (hit == Weak && u.place.Side? && OtherColumnGiven(give, units, i, key))
  {
    ComponentHit(make, give, eff, units, c, i, key);
    if FirstZone(Collect(make, units, |units|), key, units[i].para).Some? {
      var j := Kin(make, give, eff, units, i, key);
    }
  }

  /** The component a unit was given answers fully, unless it also holds the other column. */
  lemma OwnComponent(make: (Unit, nat) -> Option<Record>, give: Unit -> Key, eff: Unit -> Zone, units: seq<Unit>,
                     c: Component, i: nat, key: Key)
    requires Makes(make, give, eff) && Coherent(units)
    requires Reflects(c, Collect(make, units, |units|), key)
    requires i < |units| && give(units[i]) == key != Khac
    ensures var u := units[i]; var hit := HitFrom(c, u.para, ZoneOf(u), LineOf(u), 0);
      hit == Strong || (hit == Weak && u.place.Side? && OtherColumnGiven(give, units, i, key))
  {
    UnitIsRecorded(make, give, eff, units, i);
    ComponentHit(make, give, eff, units, c, i, key);
    var j := Kin(make, give, eff, units, i, key);
  }

  /** A paragraph has no third column: given the other one, no other component answers. */
  lemma OneOtherColumn(give: Unit -> Key, units: seq<Unit>, i: nat, key: Key, other: Key)
    requires Coherent(units) && i < |units| && units[i].place.Side?
    requires OtherColumnGiven(give, units, i, key) && OtherColumnGiven(give, units, i, other)
    ensures key == other
  {
    var j :| 0 <= j < |units| && j != i && units[j].para == units[i].para && give(units[j]) == key;
    var m :| 0 <= m < |units| && m != i && units[m].para == units[i].para && give(units[m]) == other;
    assert Siblings(units[i].place, units[j].place) && Siblings(units[i].place, units[m].place);
    assert units[j].place == units[m].place;
    assert j == m;
  }

  /** Any component but the one given to the unit: no answer, or one for the other column. */
  ghost predicate OthersKeepOff(st: State, give: Unit -> Key, units: seq<Unit>, i: nat)
    requires i < |units|
  {
    forall key :: key != give(units[i]) ==>
                    || HitOn(st, units[i], key) == No
                    || (HitOn(st, units[i], key) == Weak && units[i].place.Side?
                        && OtherColumnGiven(give, units, i, key))
  }

  function HitOn(st: State, u: Unit, key: Key): Hit {
    HitAt(st, u.para, ZoneOf(u), LineOf(u), key)
  }

  lemma OthersDoKeepOff(make: (Unit, nat) -> Option<Record>, give: Unit -> Key, eff: Unit -> Zone, units: seq<Unit>,
                        st: State, i: nat)
    requires Makes(make, give, eff) && Coherent(units)
    requires CompsReflect(st.comps, Collect(make, units, |units|))
    requires i < |units|
    ensures OthersKeepOff(st, give, units, i)
  {
    forall key | key != give(units[i])
      ensures HitOn(st, units[i], key) == No
           || (HitOn(st, units[i], key) == Weak && units[i].place.Side? && OtherColumnGiven(give, units, i, key))
    {
      if key != Signature && key in st.comps { OtherComponent(make, give, eff, units, st.comps[key], i, key); }
    }
  }

  lemma ReadBack(make: (Unit, nat) -> Option<Record>, give: Unit -> Key, eff: Unit -> Zone, units: seq<Unit>,
                 st: State, i: nat)
    requires Makes(make, give, eff) && Coherent(units)
    requires OrderReflects(st.order, st.comps, Collect(make, units, |units|))
    requires CompsReflect(st.comps, Collect(make, units, |units|))
    requires i < |units| && give(units[i]) != Khac && give(units[i]) != Signature
    ensures LabelOf(st, units[i]) == Some(give(units[i]))
  {
    var u, lab := units[i], give(units[i]);
    UnitIsRecorded(make, give, eff, units, i);
    OwnComponent(make, give, eff, units, st.comps[lab], i, lab);
    OthersDoKeepOff(make, give, eff, units, st, i);
    PickedOut(st, give, units, i);
  }

  lemma PickedOut(st: State, give: Unit -> Key, units: seq<Unit>, i: nat)
    requires Coherent(units) && i < |units| && give(units[i]) in st.order
    requires OthersKeepOff(st, give, units, i)
    requires var lab := give(units[i]);
      || HitOn(st, units[i], lab) == Strong
      || (HitOn(st, units[i], lab) == Weak && units[i].place.Side? && OtherColumnGiven(give, units, i, lab))
    ensures LabelOf(st, units[i]) == Some(give(units[i]))
  {
    var u, lab := units[i], give(units[i]);
    var para, zone, line := u.para, ZoneOf(u), LineOf(u);
    if HitOn(st, u, lab) == Strong {
      var j :| 0 <= j < |st.order| && st.order[j] == lab;
      forall key | key != lab ensures HitAt(st, para, zone, line, key) != Strong {
        assert HitOn(st, u, key) != Strong;
      }
      ReadFinds(st, para, zone, line, lab, 0, j, None);
    } else {
      forall key | key != lab ensures HitAt(st, para, zone, line, key) == No {
        if HitOn(st, u, key) == Weak { OneOtherColumn(give, units, i, key, lab); }
      }
      assert st.order[0..] == st.order;
      ReadFindsOnly(st, para, zone, line, lab, 0, None);
    }
  }

  /** Reading a label never looks at the signature block. */
  lemma {:induction false} SignatureIsSkipped(st: State, signature: Component, para: nat, zone: Zone,
                                              line: Option<nat>, i: nat, found: Option<Key>)
    requires i <= |st.order|
    ensures ReadFrom(WithSignature(st, signature), para, zone, line, i, found)
         == ReadFrom(st, para, zone, line, i, found)
    decreases |st.order| - i
  {
    if i < |st.order| {
      var key := st.order[i];
      SignatureIsSkipped(st, signature, para, zone, line, i + 1, found);
      SignatureIsSkipped(st, signature, para, zone, line, i + 1, if found.Some? then found else Some(key));
    }
  }

  /**
   * Labels written are the labels read: whatever the reply, the hints and the texts, every unit that
   * was not set aside as "khac" is found under the component it was given, whole paragraphs, columns
   * and lines alike.
   */
  lemma EveryLabelComesBack(task: Task, paras: seq<Para>, pt: Patterns, signature: Component, i: nat)
    requires i < |Elements(paras, |paras|, pt)|
    requires Resolve(task, Elements(paras, |paras|, pt)[i]) != Khac
    ensures var units := Elements(paras, |paras|, pt);
      LabelOf(WithSignature(Run(Records(task, units)), signature), units[i]) == Some(Resolve(task, units[i]))
  {
    var units := Elements(paras, |paras|, pt);
    var st, u := Run(Records(task, units)), units[i];
    ElementsAreCoherent(paras, |paras|, pt);
    TaskMakes(task);
    RunIsExact(Records(task, units));
    ReadBack(ToRecord(task), Giving(task), Reading(task), units, st, i);
    SignatureIsSkipped(st, signature, u.para, ZoneOf(u), LineOf(u), 0, None);
  }

  lemma {:induction false} CollectedAre<T>(pick: (Unit, nat) -> Option<T>, units: seq<Unit>, n: nat, x: T)
    requires n <= |units|
    ensures x in Collect(pick, units, n) <==> exists i: nat :: i < n && pick(units[i], i) == Some(x)
  {
    if n > 0 { CollectedAre(pick, units, n - 1, x); }
  }

  predicate Disagrees(diag: Diagnosis, id: string) {
    exists k :: 0 <= k < |diag.disagreements| && diag.disagreements[k].id == id
  }

  /** A unit is reported exactly when it disagrees, and with what it was given. */
  lemma ReportIsExact(task: Task, units: seq<Unit>, i: nat)
    requires Coherent(units) && i < |units|
    ensures var told := DiagnosisOf(task, units, |units|).disagreements;
      && (forall d :: d in told && d.id == Id(units[i]) ==> ToDisagreement(task)(units[i], i) == Some(d))
      && (ToDisagreement(task)(units[i], i).Some? ==> ToDisagreement(task)(units[i], i).value in told)
  {
    var told := Collect(ToDisagreement(task), units, |units|);
    forall d | d in told && d.id == Id(units[i]) ensures ToDisagreement(task)(units[i], i) == Some(d) {
      CollectedAre(ToDisagreement(task), units, |units|, d);
      var j: nat :| j < |units| && ToDisagreement(task)(units[j], j) == Some(d);
      if j != i { IdsAreDistinct(units, i, j); }
    }
    if ToDisagreement(task)(units[i], i).Some? {
      CollectedAre(ToDisagreement(task), units, |units|, ToDisagreement(task)(units[i], i).value);
    }
  }

  /**
   * The report of disagreements is complete and sound: a unit that was asked about is read back under
   * the label hinted at exactly when its id is not reported, and a reported one is read back under the
   * label the report gives.
   */
  lemma HintComesBackUnlessReported(task: Task, paras: seq<Para>, pt: Patterns, signature: Component, i: nat)
    requires i < |Elements(paras, |paras|, pt)|
    requires var u := Elements(paras, |paras|, pt)[i];
      Resolve(task, u) != Khac && task.hint(u).Some? && Id(u) !in task.elided
    ensures var units := Elements(paras, |paras|, pt);
      var st := WithSignature(Run(Records(task, units)), signature);
      var diag := DiagnosisOf(task, units, |units|);
      && (LabelOf(st, units[i]) == Some(task.hint(units[i]).value) <==> !Disagrees(diag, Id(units[i])))
      && (forall d :: d in diag.disagreements && d.id == Id(units[i]) ==> LabelOf(st, units[i]) == Some(d.given))
  {
    var units := Elements(paras, |paras|, pt);
    EveryLabelComesBack(task, paras, pt, signature, i);
    ElementsAreCoherent(paras, |paras|, pt);
    ReportIsExact(task, units, i);
  }

  // ----- which label a unit is given -----

  /**
   * The label of a unit: what the reply names for its id; body text when it was left out of the question
   * and of the reply; else the hint, or body text without one.
   */
  predicate Labelled(task: Task, u: Unit, k: Key) {
    var id := Id(u);
    if id in task.reply && task.reply[id].Some? then k == task.reply[id].value
    else if id in task.elided && id !in task.reply then k == NoiDung
    else k == if task.hint(u).Some? then task.hint(u).value else NoiDung
  }

  /** A unit is read back under the label the reply, the elision or the hint gives it. */
  lemma GivenComesBack(task: Task, paras: seq<Para>, pt: Patterns, signature: Component, i: nat, k: Key)
    requires i < |Elements(paras, |paras|, pt)|
    requires Labelled(task, Elements(paras, |paras|, pt)[i], k) && k != Khac
    ensures var units := Elements(paras, |paras|, pt);
      LabelOf(WithSignature(Run(Records(task, units)), signature), units[i]) == Some(k)
  {
    EveryLabelComesBack(task, paras, pt, signature, i);
  }

  /** The record of unit u, the i-th: its label, unless that sets it aside, its text, place and side of the page. */
  predicate IsRecordOf(task: Task, u: Unit, i: nat, r: Record) {
    && r.key != Khac && Labelled(task, u, r.key) && r.para == u.para && r.text == task.text(u)
    && r.pos == Some(i) && r.line == LineOf(u) && StandsAt(task, u, r.zone)
  }

  lemma ResolveIs(task: Task, u: Unit, k: Key)
    ensures Resolve(task, u) == k <==> Labelled(task, u, k)
  {
  }

  lemma ZoneIs(task: Task, u: Unit, zone: Zone)
    ensures EffectiveZone(task, u) == zone <==> StandsAt(task, u, zone)
  {
  }

  lemma LineIs(task: Task, u: Unit, i: nat)
    ensures RecordOf(task, u, i)
         == Record(Resolve(task, u), u.para, task.text(u), EffectiveZone(task, u), Some(i), LineOf(u))
  {
    LineIsReadFromId(u);
  }

  lemma RecordIsOf(task: Task, u: Unit, i: nat, r: Record)
    ensures ToRecord(task)(u, i) == Some(r) <==> IsRecordOf(task, u, i, r)
  {
    ResolveIs(task, u, r.key);
    ZoneIs(task, u, r.zone);
    LineIs(task, u, i);
  }

  /** What is recorded: every unit that is not set aside, and nothing else. */
  lemma RecordsAreExact(task: Task, units: seq<Unit>, r: Record)
    ensures r in Records(task, units) <==> exists i: nat :: i < |units| && IsRecordOf(task, units[i], i, r)
  {
    CollectedAre(ToRecord(task), units, |units|, r);
    forall i: nat | i < |units| ensures ToRecord(task)(units[i], i) == Some(r) <==> IsRecordOf(task, units[i], i, r) {
      RecordIsOf(task, units[i], i, r);
    }
  }

  /** Its own side; over the whole page, the right one when it is pushed there, else the left one when flush. */
  predicate StandsAt(task: Task, u: Unit, zone: Zone) {
    if ZoneOf(u) != Full then zone == ZoneOf(u)
    else zone == if task.rightish(u.para) then Right else if task.flushLeft(u.para) then Left else Full
  }

  /** The report: ids the reply left out and was not excused from, and ids it gave no component. */
  lemma ReportedIdsAreExact(task: Task, units: seq<Unit>, id: string)
    ensures var diag := DiagnosisOf(task, units, |units|);
      && (id in diag.missing <==>
            id !in task.reply && id !in task.elided && exists i: nat :: i < |units| && Id(units[i]) == id)
      && (id in diag.invalid <==>
            id in task.reply && task.reply[id].None? && exists i: nat :: i < |units| && Id(units[i]) == id)
  {
    CollectedAre(ToMissing(task), units, |units|, id);
    CollectedAre(ToInvalid(task), units, |units|, id);
  }

  /** The lists go through the units in their order. */
  lemma {:induction false} CollectGrows<T>(pick: (Unit, nat) -> Option<T>, units: seq<Unit>, m: nat, n: nat)
    requires m <= n <= |units|
    ensures Collect(pick, units, m) <= Collect(pick, units, n)
    decreases n
  {
    if m < n { CollectGrows(pick, units, m, n - 1); }
  }

  /** The paragraphs of the body are those of the units labelled as body text. */
  lemma BodyIsExact(task: Task, units: seq<Unit>, para: nat)
    ensures para in Collect(ToBody(task), units, |units|) <==>
              exists i: nat :: i < |units| && units[i].para == para && Labelled(task, units[i], NoiDung)
  {
    CollectedAre(ToBody(task), units, |units|, para);
  }
}
