/**
 * The components of an administrative document. A unit of text is a whole paragraph, one side of a
 * paragraph split in two columns by tabs, or one line of a paragraph read line by line; a component
 * collects the paragraphs, and lines of paragraphs, that were recorded under its name.
 */
module Segments {
  import opened Options
  import Text

  datatype Key =
    | QuocHieu | TieuNgu | CoQuanChuQuan | CoQuanBanHanh | SoKyHieu | DiaDanhNgayThang | DoMat | DoKhan
    | TrichYeu | ThamQuyenBanHanh | CanCu | KinhGui | NoiDung | ChucDanh | NguoiKy | NoiNhan
    | ChiDanLuuHanh | KyHieuSoanThao | DiaChiCoQuan | PhuLuc | Khac | Signature

  datatype Zone = Left | Right | Full

  datatype Component = Component(paras: seq<nat>, zones: seq<Zone>, subs: map<nat, seq<nat>>,
                                 texts: seq<string>, text: string, zone: Zone, pos: Option<nat>)

  /** One unit recorded under a component; `line` when it is one line of its paragraph. */
  datatype Record = Record(key: Key, para: nat, text: string, zone: Zone, pos: Option<nat>, line: Option<nat>)

  function Lines(subs: map<nat, seq<nat>>, para: nat): seq<nat> {
    if para in subs then subs[para] else []
  }

  // ----- what has been recorded under a component, read off the list of records -----

  predicate Concerns(r: Record, key: Key, para: nat) {
    r.key == key && r.para == para
  }

  /** The zone under which a paragraph was first recorded in a component. */
  function FirstZone(rs: seq<Record>, key: Key, para: nat): Option<Zone> {
    if rs == [] then None
    else
      var earlier := FirstZone(rs[..|rs| - 1], key, para);
      if earlier.None? && Concerns(rs[|rs| - 1], key, para) then Some(rs[|rs| - 1].zone) else earlier
  }

  predicate Recorded(rs: seq<Record>, key: Key) {
    exists i :: 0 <= i < |rs| && rs[i].key == key
  }

  predicate LineRecorded(rs: seq<Record>, key: Key, para: nat, k: nat) {
    exists i :: 0 <= i < |rs| && Concerns(rs[i], key, para) && rs[i].line == Some(k)
  }

  /** The texts recorded under a component, in order, without the empty ones. */
  function TextsOf(rs: seq<Record>, key: Key): seq<string> {
    if rs == [] then []
    else
      var earlier := TextsOf(rs[..|rs| - 1], key);
      if rs[|rs| - 1].key == key && rs[|rs| - 1].text != "" then earlier + [rs[|rs| - 1].text] else earlier
  }

  function Least(a: Option<nat>, b: Option<nat>): Option<nat> {
    if a.None? then b else if b.None? then a else if b.value < a.value then b else a
  }

  function LeastPos(rs: seq<Record>, key: Key): Option<nat> {
    if rs == [] then None
    else
      var earlier := LeastPos(rs[..|rs| - 1], key);
      if rs[|rs| - 1].key == key then Least(earlier, rs[|rs| - 1].pos) else earlier
  }

  predicate Distinct(s: seq<nat>) {
    forall i, j :: 0 <= i < j < |s| ==> s[i] != s[j]
  }

  ghost predicate ParasReflect(paras: seq<nat>, zones: seq<Zone>, rs: seq<Record>, key: Key) {
    && Distinct(paras)
    && |zones| == |paras|
    && (forall para :: para in paras <==> FirstZone(rs, key, para).Some?)
    && (forall i :: 0 <= i < |paras| ==> FirstZone(rs, key, paras[i]) == Some(zones[i]))
  }

  ghost predicate LinesReflect(subs: map<nat, seq<nat>>, rs: seq<Record>, key: Key) {
    forall para, k :: k in Lines(subs, para) <==> LineRecorded(rs, key, para, k)
  }

  ghost predicate TextsReflect(texts: seq<string>, text: string, rs: seq<Record>, key: Key) {
    texts == TextsOf(rs, key) && text == Text.Join(texts, "\n")
  }

  /** The component is exactly what the records under its name make it. */
  ghost predicate Reflects(c: Component, rs: seq<Record>, key: Key) {
    && ParasReflect(c.paras, c.zones, rs, key)
    && LinesReflect(c.subs, rs, key)
    && TextsReflect(c.texts, c.text, rs, key)
    && c.pos == LeastPos(rs, key)
  }

  // ----- recording -----

  function Started(zone: Zone): Component {
    Component([], [], map[], [], "", zone, None)
  }

  function WithLine(subs: map<nat, seq<nat>>, r: Record): map<nat, seq<nat>> {
    if r.line.None? || r.line.value in Lines(subs, r.para) then subs
    else subs[r.para := Lines(subs, r.para) + [r.line.value]]
  }

  function Extended(c: Component, r: Record): Component {
    var known := r.para in c.paras;
    var texts := if r.text == "" then c.texts else c.texts + [r.text];
    Component(if known then c.paras else c.paras + [r.para],
              if known then c.zones else c.zones + [r.zone],
              WithLine(c.subs, r),
              texts,
              if r.text == "" then c.text else Text.Join(texts, "\n"),
              c.zone,
              Least(c.pos, r.pos))
  }

  lemma LineRecordedNext(rs: seq<Record>, r: Record, key: Key, para: nat, k: nat)
    ensures LineRecorded(rs + [r], key, para, k)
       <==> LineRecorded(rs, key, para, k) || (Concerns(r, key, para) && r.line == Some(k))
  {
    var all := rs + [r];
    if LineRecorded(rs, key, para, k) {
      var i :| 0 <= i < |rs| && Concerns(rs[i], key, para) && rs[i].line == Some(k);
      assert all[i] == rs[i];
    }
    assert all[|rs|] == r;
  }

  /** The parts of a component that a record does not carry over one by one. */
  lemma RecordsGrow(rs: seq<Record>, r: Record, key: Key)
    ensures TextsOf(rs + [r], key)
         == if r.key == key && r.text != "" then TextsOf(rs, key) + [r.text] else TextsOf(rs, key)
    ensures LeastPos(rs + [r], key)
         == if r.key == key then Least(LeastPos(rs, key), r.pos) else LeastPos(rs, key)
    ensures forall para :: FirstZone(rs + [r], key, para)
                        == if FirstZone(rs, key, para).None? && Concerns(r, key, para) then Some(r.zone)
                           else FirstZone(rs, key, para)
  {
    assert (rs + [r])[..|rs|] == rs;
  }

  lemma OtherKeysReflect(c: Component, rs: seq<Record>, r: Record, key: Key)
    requires Reflects(c, rs, key) && r.key != key
    ensures Reflects(c, rs + [r], key)
  {
    RecordsGrow(rs, r, key);
    forall para, k ensures k in Lines(c.subs, para) <==> LineRecorded(rs + [r], key, para, k) {
      LineRecordedNext(rs, r, key, para, k);
    }
  }

  lemma StartedReflects(rs: seq<Record>, key: Key, zone: Zone)
    requires !Recorded(rs, key)
    ensures Reflects(Started(zone), rs, key)
  {
    NothingRecorded(rs, key);
  }

  lemma {:induction false} NothingRecorded(rs: seq<Record>, key: Key)
    requires !Recorded(rs, key)
    ensures TextsOf(rs, key) == [] && LeastPos(rs, key) == None
    ensures forall para :: FirstZone(rs, key, para) == None
  {
    if rs != [] {
      var init := rs[..|rs| - 1];
      forall i | 0 <= i < |init| ensures init[i].key != key {
        assert init[i] == rs[i];
      }
      NothingRecorded(init, key);
      assert rs[|rs| - 1].key != key;
    }
  }

  lemma ParasExtend(paras: seq<nat>, zones: seq<Zone>, rs: seq<Record>, r: Record)
    requires ParasReflect(paras, zones, rs, r.key)
    ensures r.para in paras ==> ParasReflect(paras, zones, rs + [r], r.key)
    ensures r.para !in paras ==> ParasReflect(paras + [r.para], zones + [r.zone], rs + [r], r.key)
  {
    RecordsGrow(rs, r, r.key);
    assert r.para in paras <==> FirstZone(rs, r.key, r.para).Some?;
  }

  lemma LinesExtend(subs: map<nat, seq<nat>>, rs: seq<Record>, r: Record)
    requires LinesReflect(subs, rs, r.key)
    ensures LinesReflect(WithLine(subs, r), rs + [r], r.key)
  {
    forall para, k ensures k in Lines(WithLine(subs, r), para) <==> LineRecorded(rs + [r], r.key, para, k) {
      LineRecordedNext(rs, r, r.key, para, k);
    }
  }

  /** Recording a unit keeps the component exact. */
  lemma ExtendedReflects(c: Component, rs: seq<Record>, r: Record)
    requires Reflects(c, rs, r.key)
    ensures Reflects(Extended(c, r), rs + [r], r.key)
  {
    RecordsGrow(rs, r, r.key);
    ParasExtend(c.paras, c.zones, rs, r);
    LinesExtend(c.subs, rs, r);
  }

  // ----- a segmented document -----

  /** The components in the order in which they were begun, and for each paragraph its first label. */
  datatype State = State(order: seq<Key>, comps: map<Key, Component>, labels: map<nat, Key>)

  const EMPTY := State([], map[], map[])

  function Recording(st: State, r: Record): State {
    var comp := if r.key in st.comps then st.comps[r.key] else Started(r.zone);
    State(if r.key in st.comps then st.order else st.order + [r.key],
          st.comps[r.key := Extended(comp, r)],
          if r.para in st.labels then st.labels else st.labels[r.para := r.key])
  }

  function Fold<S, R>(step: (S, R) -> S, first: S, rs: seq<R>): S {
    if rs == [] then first else step(Fold(step, first, rs[..|rs| - 1]), rs[|rs| - 1])
  }

  function Run(rs: seq<Record>): State {
    Fold(Recording, EMPTY, rs)
  }

  function FirstKey(rs: seq<Record>, para: nat): Option<Key> {
    if rs == [] then None
    else
      var earlier := FirstKey(rs[..|rs| - 1], para);
      if earlier.None? && rs[|rs| - 1].para == para then Some(rs[|rs| - 1].key) else earlier
  }

  ghost predicate OrderReflects(order: seq<Key>, comps: map<Key, Component>, rs: seq<Record>) {
    && (forall i, j :: 0 <= i < j < |order| ==> order[i] != order[j])
    && (forall key :: key in order <==> key in comps)
    && (forall key :: key in comps <==> Recorded(rs, key))
  }

  ghost predicate CompsReflect(comps: map<Key, Component>, rs: seq<Record>) {
    forall key :: key in comps ==> Reflects(comps[key], rs, key)
  }

  ghost predicate LabelsReflect(labels: map<nat, Key>, rs: seq<Record>) {
    forall para :: FirstKey(rs, para) == if para in labels then Some(labels[para]) else None
  }

  lemma RecordedNext(rs: seq<Record>, r: Record, key: Key)
    ensures Recorded(rs + [r], key) <==> Recorded(rs, key) || r.key == key
  {
    var all := rs + [r];
    if Recorded(rs, key) {
      var i :| 0 <= i < |rs| && rs[i].key == key;
      assert all[i] == rs[i];
    }
    assert all[|rs|] == r;
  }

  lemma OrderKept(st: State, rs: seq<Record>, r: Record)
    requires OrderReflects(st.order, st.comps, rs)
    ensures OrderReflects(Recording(st, r).order, Recording(st, r).comps, rs + [r])
  {
    forall key ensures Recorded(rs + [r], key) <==> Recorded(rs, key) || r.key == key {
      RecordedNext(rs, r, key);
    }
  }

  lemma CompsKept(st: State, rs: seq<Record>, r: Record)
    requires OrderReflects(st.order, st.comps, rs) && CompsReflect(st.comps, rs)
    ensures CompsReflect(Recording(st, r).comps, rs + [r])
  {
    var after := Recording(st, r).comps;
    forall key | key in after ensures Reflects(after[key], rs + [r], key) {
      if key != r.key {
        OtherKeysReflect(st.comps[key], rs, r, key);
      } else if key in st.comps {
        ExtendedReflects(st.comps[key], rs, r);
      } else {
        StartedReflects(rs, key, r.zone);
        ExtendedReflects(Started(r.zone), rs, r);
      }
    }
  }

  lemma LabelsKept(labels: map<nat, Key>, rs: seq<Record>, r: Record)
    requires LabelsReflect(labels, rs)
    ensures LabelsReflect(if r.para in labels then labels else labels[r.para := r.key], rs + [r])
  {
    assert (rs + [r])[..|rs|] == rs;
    forall para ensures FirstKey(rs + [r], para)
                     == if FirstKey(rs, para).None? && r.para == para then Some(r.key) else FirstKey(rs, para) {
    }
  }

  ghost predicate StateReflects(st: State, rs: seq<Record>) {
    && OrderReflects(st.order, st.comps, rs)
    && CompsReflect(st.comps, rs)
    && LabelsReflect(st.labels, rs)
  }

  lemma AllKept(st: State, rs: seq<Record>, r: Record)
    requires StateReflects(st, rs)
    ensures StateReflects(Recording(st, r), rs + [r])
  {
    OrderKept(st, rs, r);
    CompsKept(st, rs, r);
    LabelsKept(st.labels, rs, r);
  }

  predicate Keeps<S, R>(step: (S, R) -> S, holds: (S, seq<R>) -> bool, st: S, rs: seq<R>, r: R) {
    holds(st, rs) ==> holds(step(st, r), rs + [r])
  }

  /** What holds at first and is kept by every step holds after any run. */
  lemma {:induction false} FoldInduction<S(!new), R(!new)>(step: (S, R) -> S, first: S,
                                                           holds: (S, seq<R>) -> bool, rs: seq<R>)
    requires holds(first, [])
    requires forall st, init, r :: Keeps(step, holds, st, init, r)
    ensures holds(Fold(step, first, rs), rs)
  {
    if rs != [] {
      var init, r := rs[..|rs| - 1], rs[|rs| - 1];
      FoldInduction(step, first, holds, init);
      assert rs == init + [r];
      assert Keeps(step, holds, Fold(step, first, init), init, r);
    }
  }

  /**
   * After any sequence of records: each component begun holds every paragraph recorded under it once,
   * with the zone of its first unit; the lines, texts and least position recorded under it; and a
   * paragraph keeps the label it was first recorded under.
   */
  lemma RunIsExact(rs: seq<Record>)
    ensures StateReflects(Run(rs), rs)
  {
    var holds := (st, init) => StateReflects(st, init);
    forall st, init, r ensures Keeps(Recording, holds, st, init, r) {
      if StateReflects(st, init) { AllKept(st, init, r); }
    }
    FoldInduction(Recording, EMPTY, holds, rs);
  }

  method Extend(c: Component, r: Record) returns (comp: Component)
    ensures comp == Extended(c, r)
  {
    comp := c;
    if r.pos.Some? && (comp.pos.None? || r.pos.value < comp.pos.value) {
      comp := comp.(pos := r.pos);
    }
    if r.para !in comp.paras {
      comp := comp.(paras := comp.paras + [r.para], zones := comp.zones + [r.zone]);
    }
    if r.line.Some? && r.line.value !in Lines(comp.subs, r.para) {
      comp := comp.(subs := comp.subs[r.para := Lines(comp.subs, r.para) + [r.line.value]]);
    }
    if r.text != "" {
      comp := comp.(texts := comp.texts + [r.text]);
      comp := comp.(text := Text.Join(comp.texts, "\n"));
    }
  }

  class Segmented {
    var order: seq<Key>
    var comps: map<Key, Component>
    var labels: map<nat, Key>
    var body: seq<nat>

    function Now(): State
      reads this
    {
      State(order, comps, labels)
    }

    constructor ()
      ensures Now() == EMPTY && body == []
    {
      order, comps, labels, body := [], map[], map[], [];
    }

    method Add(key: Key, para: nat, text: string, zone: Zone, pos: Option<nat>, line: Option<nat>)
      modifies this`order, this`comps, this`labels
      ensures Now() == Recording(old(Now()), Record(key, para, text, zone, pos, line))
    {
      if key !in comps {
        order := order + [key];
        comps := comps[key := Started(zone)];
      }
      var comp := Extend(comps[key], Record(key, para, text, zone, pos, line));
      comps := comps[key := comp];
      if para !in labels { labels := labels[para := key]; }
    }
  }
}
