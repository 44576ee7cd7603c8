/** Assembling a catalog from frames that carry one item each (src/workstation/link_model.rs). */
module Catalog {
  import opened Common
  import opened Frame

  datatype CatalogView = CatalogView(
    stamp: Option<I64>, instruments: seq<CatalogInstrument>, features: seq<CatalogFeature>,
    instrumentTotal: Option<U16>)

  const NEW_CATALOG := CatalogView(None, [], [], None)

  datatype UiInstrument = UiInstrument(
    instrumentId: U16, display: WireName, baseName: WireName, quoteName: WireName, baseAsset: U16, quoteAsset: U16,
    tickSize: Option<I64>, lotSize: Option<I64>, qtyScale: I64)

  /** The parts of a published catalog that come from frames; its titles come from configuration. */
  datatype UiCatalog = UiCatalog(
    executionMode: Option<ExecutionMode>, spinIntervalUs: nat, instruments: seq<UiInstrument>,
    featureNames: seq<WireName>)

  const NO_NAME := WireName(seq(32, _ => 0), 0)

  // ---------------------------------------------------------------- taking frames in

  /** Whether frames of this stamp belong to the assembly, which a newer stamp starts over. */
  function Adopt(v: CatalogView, stamp: I64): (CatalogView, bool) {
    match v.stamp
    case Some(held) =>
      if stamp < held then (v, false)
      else if stamp == held then (v, true)
      else (CatalogView(Some(stamp), [], [], None), true)
    case None => (CatalogView(Some(stamp), [], [], None), true)
  }

  function InstrumentIndex(held: seq<CatalogInstrument>, id: U16): (index: Option<nat>)
    ensures index.Some? ==> index.value < |held| && held[index.value].instrument == id
    ensures index.None? ==> forall i :: 0 <= i < |held| ==> held[i].instrument != id
  {
    if held == [] then None
    else if held[0].instrument == id then Some(0)
    else match InstrumentIndex(held[1..], id) case None => None case Some(i) => Some(i + 1)
  }

  function FeatureIndex(held: seq<CatalogFeature>, id: U16): (index: Option<nat>)
    ensures index.Some? ==> index.value < |held| && held[index.value].feature == id
    ensures index.None? ==> forall i :: 0 <= i < |held| ==> held[i].feature != id
  {
    if held == [] then None
    else if held[0].feature == id then Some(0)
    else match FeatureIndex(held[1..], id) case None => None case Some(i) => Some(i + 1)
  }

  function AcceptInstrument(v: CatalogView, frame: CatalogInstrument): CatalogView {
    var (w, belongs) := Adopt(v, frame.catalogTs);
    if !belongs then w
    else
      var held := match InstrumentIndex(w.instruments, frame.instrument)
        case Some(index) => w.instruments[index := frame]
        case None => if |w.instruments| < frame.totalCount then w.instruments + [frame] else w.instruments;
      w.(instrumentTotal := Some(frame.totalCount), instruments := held)
  }

  function AcceptFeature(v: CatalogView, frame: CatalogFeature): CatalogView {
    if frame.feature >= frame.totalCount then v
    else
      var (w, belongs) := Adopt(v, frame.catalogTs);
      if !belongs then w
      else
        var held := match FeatureIndex(w.features, frame.feature)
          case Some(index) => w.features[index := frame]
          case None => w.features + [frame];
        w.(features := held)
  }

  // ---------------------------------------------------------------- publishing

  predicate IsComplete(v: CatalogView, featureCount: U16) {
    && v.instrumentTotal.Some? && |v.instruments| == v.instrumentTotal.value
    && |v.features| == featureCount
  }

  function PlacedById(rows: seq<CatalogInstrument>, row: CatalogInstrument): seq<CatalogInstrument> {
    if rows == [] || rows[|rows| - 1].instrument <= row.instrument then rows + [row]
    else PlacedById(rows[..|rows| - 1], row) + [rows[|rows| - 1]]
  }

  function SortedById(rows: seq<CatalogInstrument>): seq<CatalogInstrument>
    decreases |rows|
  {
    if rows == [] then [] else PlacedById(SortedById(rows[..|rows| - 1]), rows[|rows| - 1])
  }

  function Shown(row: CatalogInstrument): UiInstrument {
    UiInstrument(row.instrument, row.display, row.baseName, row.quoteName, row.baseAsset, row.quoteAsset,
                 row.tickSize, row.lotSize, row.qtyScale)
  }

  function AllShown(rows: seq<CatalogInstrument>): (shown: seq<UiInstrument>)
    ensures |shown| == |rows| && forall i :: 0 <= i < |rows| ==> shown[i] == Shown(rows[i])
  {
    seq(|rows|, i requires 0 <= i < |rows| => Shown(rows[i]))
  }

  /** Each frame writes its name into the slot its id names; an id past the slots abandons the build. */
  function FilledNames(names: seq<WireName>, features: seq<CatalogFeature>): (filled: Option<seq<WireName>>)
    ensures filled.Some? ==> |filled.value| == |names|
    decreases |features|
  {
    if features == [] then Some(names)
    else
      var last := features[|features| - 1];
      match FilledNames(names, features[..|features| - 1])
      case None => None
      case Some(before) => if last.feature < |before| then Some(before[last.feature := last.name]) else None
  }

  function Build(v: CatalogView, reported: LifecycleReport): Option<UiCatalog> {
    if !IsComplete(v, reported.featureCount) then None
    else
      match FilledNames(seq(|v.features|, _ => NO_NAME), v.features)
      case None => None
      case Some(names) =>
        Some(UiCatalog(reported.executionMode, Max(0, reported.spinIntervalUs),
                       AllShown(SortedById(v.instruments)), names))
  }

  // ---------------------------------------------------------------- what an assembly keeps

  /** Frames held are distinct by id and all of the adopted stamp. */
  ghost predicate Assembled(v: CatalogView) {
    && (forall i, j :: 0 <= i < j < |v.instruments| ==> v.instruments[i].instrument != v.instruments[j].instrument)
    && (forall i, j :: 0 <= i < j < |v.features| ==> v.features[i].feature != v.features[j].feature)
    && (forall i :: 0 <= i < |v.instruments| ==> v.stamp == Some(v.instruments[i].catalogTs))
    && (forall i :: 0 <= i < |v.features| ==> v.stamp == Some(v.features[i].catalogTs))
  }

  predicate NotBefore(a: Option<I64>, b: Option<I64>) {
    a.Some? ==> b.Some? && a.value <= b.value
  }

  lemma AcceptingInstrumentKeeps(v: CatalogView, frame: CatalogInstrument)
    requires Assembled(v)
    ensures Assembled(AcceptInstrument(v, frame)) && NotBefore(v.stamp, AcceptInstrument(v, frame).stamp)
  {
    var (w, belongs) := Adopt(v, frame.catalogTs);
    assert Assembled(w);
    hide Adopt;
  }

  lemma AcceptingFeatureKeeps(v: CatalogView, frame: CatalogFeature)
    requires Assembled(v)
    ensures Assembled(AcceptFeature(v, frame)) && NotBefore(v.stamp, AcceptFeature(v, frame).stamp)
  {
    var (w, belongs) := Adopt(v, frame.catalogTs);
    assert Assembled(w);
    hide Adopt;
  }

  // ---------------------------------------------------------------- sorting by id

  ghost predicate InIdOrder(rows: seq<CatalogInstrument>) {
    forall i, j :: 0 <= i < j < |rows| ==> rows[i].instrument < rows[j].instrument
  }

  lemma {:induction false} PlacingKeepsRows(rows: seq<CatalogInstrument>, row: CatalogInstrument)
    ensures |PlacedById(rows, row)| == |rows| + 1
    ensures forall x :: x in PlacedById(rows, row) <==> x in rows || x == row
    decreases |rows|
  {
    if !(rows == [] || rows[|rows| - 1].instrument <= row.instrument) {
      PlacingKeepsRows(rows[..|rows| - 1], row);
      assert rows == rows[..|rows| - 1] + [rows[|rows| - 1]];
    }
  }

  lemma {:induction false} SortingKeepsRows(rows: seq<CatalogInstrument>)
    ensures |SortedById(rows)| == |rows|
    ensures forall x :: x in SortedById(rows) <==> x in rows
    decreases |rows|
  {
    if rows != [] {
      hide PlacedById;
      var front, last := rows[..|rows| - 1], rows[|rows| - 1];
      SortingKeepsRows(front);
      PlacingKeepsRows(SortedById(front), last);
      assert rows == front + [last];
    }
  }

  lemma {:induction false} PlacingKeepsOrder(rows: seq<CatalogInstrument>, row: CatalogInstrument)
    requires InIdOrder(rows) && forall i :: 0 <= i < |rows| ==> rows[i].instrument != row.instrument
    ensures InIdOrder(PlacedById(rows, row))
    decreases |rows|
  {
    if !(rows == [] || rows[|rows| - 1].instrument <= row.instrument) {
      var front, last := rows[..|rows| - 1], rows[|rows| - 1];
      PlacingKeepsOrder(front, row);
      PlacingKeepsRows(front, row);
      var placed := PlacedById(front, row);
      forall i | 0 <= i < |placed|
        ensures placed[i].instrument < last.instrument
      {
        assert placed[i] in placed;
        if placed[i] != row {
          var k :| 0 <= k < |front| && front[k] == placed[i];
          assert rows[k].instrument < rows[|rows| - 1].instrument;
        }
      }
    }
  }

  lemma {:induction false} SortingOrders(rows: seq<CatalogInstrument>)
    requires forall i, j :: 0 <= i < j < |rows| ==> rows[i].instrument != rows[j].instrument
    ensures InIdOrder(SortedById(rows))
    decreases |rows|
  {
    if rows != [] {
      hide InIdOrder, PlacedById;
      var front, last := rows[..|rows| - 1], rows[|rows| - 1];
      SortingOrders(front);
      SortingKeepsRows(front);
      var sorted := SortedById(front);
      forall i | 0 <= i < |sorted|
        ensures sorted[i].instrument != last.instrument
      {
        assert sorted[i] in front;
        var k :| 0 <= k < |front| && front[k] == sorted[i];
        assert rows[k].instrument != rows[|rows| - 1].instrument;
      }
      PlacingKeepsOrder(sorted, last);
    }
  }

  // ---------------------------------------------------------------- the pigeonhole

  function IdsOf(features: seq<CatalogFeature>): set<int> {
    set i | 0 <= i < |features| :: features[i].feature
  }

  lemma {:induction false} DistinctIdsCount(features: seq<CatalogFeature>)
    requires forall i, j :: 0 <= i < j < |features| ==> features[i].feature != features[j].feature
    ensures |IdsOf(features)| == |features|
    decreases |features|
  {
    if features != [] {
      var front, last := features[..|features| - 1], features[|features| - 1];
      DistinctIdsCount(front);
      assert IdsOf(features) == IdsOf(front) + {last.feature};
    }
  }

  function Below(n: nat): (ids: set<int>)
    ensures forall i :: i in ids <==> 0 <= i < n
    ensures |ids| == n
  {
    if n == 0 then {} else Below(n - 1) + {n - 1}
  }

  lemma SubsetOfSameSize(a: set<int>, b: set<int>)
    requires a <= b && |a| == |b|
    ensures a == b
  {
    assert |b - a| == |b| - |a|;
  }

  /** As many distinct in-range ids as there are slots leaves no slot empty. */
  lemma EverySlotHasItsFrame(features: seq<CatalogFeature>, slot: nat)
    requires forall i, j :: 0 <= i < j < |features| ==> features[i].feature != features[j].feature
    requires forall i :: 0 <= i < |features| ==> features[i].feature < |features|
    requires slot < |features|
    ensures exists i :: 0 <= i < |features| && features[i].feature == slot
  {
    DistinctIdsCount(features);
    SubsetOfSameSize(IdsOf(features), Below(|features|));
    assert slot in Below(|features|);
  }

  lemma {:induction false} FilledByFrames(names: seq<WireName>, features: seq<CatalogFeature>)
    requires forall i, j :: 0 <= i < j < |features| ==> features[i].feature != features[j].feature
    requires FilledNames(names, features).Some?
    ensures forall i :: 0 <= i < |features| ==>
              features[i].feature < |names|
              && FilledNames(names, features).value[features[i].feature] == features[i].name
    decreases |features|
  {
    if features != [] {
      FilledByFrames(names, features[..|features| - 1]);
    }
  }

  // ---------------------------------------------------------------- the theorem

  /** A row shows a frame: every name, asset and size where it belongs. */
  ghost predicate Shows(row: UiInstrument, frame: CatalogInstrument) {
    && row.instrumentId == frame.instrument && row.display == frame.display
    && row.baseName == frame.baseName && row.quoteName == frame.quoteName
    && row.baseAsset == frame.baseAsset && row.quoteAsset == frame.quoteAsset
    && row.tickSize == frame.tickSize && row.lotSize == frame.lotSize && row.qtyScale == frame.qtyScale
  }

  /** A row shows one of these frames. */
  ghost predicate ShowsOne(row: UiInstrument, frames: seq<CatalogInstrument>) {
    exists frame :: frame in frames && Shows(row, frame)
  }

  /** The frame with this id carries this name. */
  ghost predicate NamedByItsFrame(slot: int, name: WireName, frames: seq<CatalogFeature>) {
    exists frame :: frame in frames && frame.feature == slot && frame.name == name
  }

  ghost predicate OneStamp(v: CatalogView) {
    && v.stamp.Some?
    && (forall frame :: frame in v.instruments ==> frame.catalogTs == v.stamp.value)
    && (forall frame :: frame in v.features ==> frame.catalogTs == v.stamp.value)
  }

  /** What it means for a published catalog to be the assembly's, whole: frames of one stamp only; exactly the
      announced number of distinct instruments, in id order, each shown from its own frame; and one name in
      every feature slot, that of the frame with the slot's id. */
  ghost predicate IsWhole(v: CatalogView, featureCount: int, c: UiCatalog) {
    && OneStamp(v)
    && v.instrumentTotal.Some? && |c.instruments| == v.instrumentTotal.value == |v.instruments|
    && (forall i, j :: 0 <= i < j < |c.instruments| ==> c.instruments[i].instrumentId < c.instruments[j].instrumentId)
    && (forall i :: 0 <= i < |c.instruments| ==> ShowsOne(c.instruments[i], v.instruments))
    && |c.featureNames| == featureCount == |v.features|
    && (forall slot :: 0 <= slot < featureCount ==> NamedByItsFrame(slot, c.featureNames[slot], v.features))
  }

  lemma BuiltNames(v: CatalogView, names: seq<WireName>)
    requires Assembled(v) && |names| == |v.features| && FilledNames(names, v.features).Some?
    ensures forall slot :: 0 <= slot < |v.features| ==>
              NamedByItsFrame(slot, FilledNames(names, v.features).value[slot], v.features)
  {
    FilledByFrames(names, v.features);
    forall slot | 0 <= slot < |v.features|
      ensures NamedByItsFrame(slot, FilledNames(names, v.features).value[slot], v.features)
    {
      EverySlotHasItsFrame(v.features, slot);
      var i :| 0 <= i < |v.features| && v.features[i].feature == slot;
      assert v.features[i] in v.features;
    }
  }

  lemma BuiltRows(v: CatalogView)
    requires Assembled(v)
    ensures var rows := AllShown(SortedById(v.instruments));
            && |rows| == |v.instruments|
            && (forall i, j :: 0 <= i < j < |rows| ==> rows[i].instrumentId < rows[j].instrumentId)
            && (forall i :: 0 <= i < |rows| ==> ShowsOne(rows[i], v.instruments))
  {
    SortingOrders(v.instruments);
    SortingKeepsRows(v.instruments);
    var sorted := SortedById(v.instruments);
    forall i | 0 <= i < |sorted|
      ensures ShowsOne(Shown(sorted[i]), v.instruments)
    {
      assert sorted[i] in v.instruments && Shows(Shown(sorted[i]), sorted[i]);
    }
  }

  /** Whatever order, repetition or staleness the frames arrived in, a catalog that builds is whole. */
  lemma BuiltIsWhole(v: CatalogView, reported: LifecycleReport)
    requires Assembled(v) && Build(v, reported).Some? && v.stamp.Some?
    ensures IsWhole(v, reported.featureCount, Build(v, reported).value)
  {
    assert OneStamp(v);
    BuiltNames(v, seq(|v.features|, _ => NO_NAME));
    BuiltRows(v);
    hide FilledNames, SortedById, AllShown, Assembled, OneStamp, NamedByItsFrame, ShowsOne;
  }

  lemma {:induction false} FilledUnlessOutOfRange(names: seq<WireName>, features: seq<CatalogFeature>)
    ensures FilledNames(names, features).Some? <==> forall i :: 0 <= i < |features| ==> features[i].feature < |names|
    decreases |features|
  {
    if features != [] {
      FilledUnlessOutOfRange(names, features[..|features| - 1]);
    }
  }

  /** And it builds as soon as it can: exactly when the announced numbers are held and no feature id is past
      the slots. */
  lemma BuildsExactlyWhenWhole(v: CatalogView, reported: LifecycleReport)
    ensures Build(v, reported).Some? <==>
            && v.instrumentTotal == Some(|v.instruments|) && |v.features| == reported.featureCount
            && forall i :: 0 <= i < |v.features| ==> v.features[i].feature < reported.featureCount
  {
    FilledUnlessOutOfRange(seq(|v.features|, _ => NO_NAME), v.features);
  }

  /** What is not assembled from frames is as reported. */
  lemma BuiltAsReported(v: CatalogView, reported: LifecycleReport)
    requires Build(v, reported).Some?
    ensures var built := Build(v, reported).value;
            && built.executionMode == reported.executionMode
            && built.spinIntervalUs == (if reported.spinIntervalUs < 0 then 0 else reported.spinIntervalUs)
  {
  }

  // ---------------------------------------------------------------- what one frame does

  /** A frame of an older stamp is refused, one of the same stamp replaces its own id or is added while fewer are held
      than it announces, and one of a newer stamp starts over from itself. */
  lemma InstrumentFrameIsTaken(v: CatalogView, frame: CatalogInstrument)
    requires Assembled(v)
    ensures var w := AcceptInstrument(v, frame);
            var isStale := v.stamp.Some? && frame.catalogTs < v.stamp.value;
            var isSame := v.stamp == Some(frame.catalogTs);
            var instruments, features := if isSame then v.instruments else [], if isSame then v.features else [];
            var isHeld := exists i :: 0 <= i < |instruments| && instruments[i].instrument == frame.instrument;
            var isTaken := isHeld || |instruments| < frame.totalCount;
            && (isStale ==> w == v)
            && (!isStale ==>
                  && w.stamp == Some(frame.catalogTs) && w.instrumentTotal == Some(frame.totalCount)
                  && w.features == features
                  && |w.instruments| == |instruments| + (if isTaken && !isHeld then 1 else 0)
                  && (!isTaken ==> w.instruments == instruments)
                  && (isTaken ==>
                        forall x :: x in w.instruments <==>
                          x == frame || (x in instruments && x.instrument != frame.instrument)))
  {
    if v.stamp.Some? && frame.catalogTs < v.stamp.value {
      return;
    }
    var instruments := if v.stamp == Some(frame.catalogTs) then v.instruments else [];
    var index := InstrumentIndex(instruments, frame.instrument);
    if index.Some? {
      InstrumentReplaced(instruments, index.value, frame);
    }
    hide InstrumentIndex;
  }

  lemma InstrumentReplaced(held: seq<CatalogInstrument>, i: nat, frame: CatalogInstrument)
    requires i < |held| && held[i].instrument == frame.instrument
    requires forall a, b :: 0 <= a < b < |held| ==> held[a].instrument != held[b].instrument
    ensures forall x :: x in held[i := frame] <==> x == frame || (x in held && x.instrument != frame.instrument)
  {
    var after := held[i := frame];
    assert after[i] == frame;
    forall x | x in held && x.instrument != frame.instrument
      ensures x in after
    {
      var k :| 0 <= k < |held| && held[k] == x;
      assert after[k] == x;
    }
  }

  /** Likewise for a feature, which is refused outright when its id is past the number it announces. */
  lemma FeatureFrameIsTaken(v: CatalogView, frame: CatalogFeature)
    requires Assembled(v)
    ensures var w := AcceptFeature(v, frame);
            var isRefused := frame.feature >= frame.totalCount || (v.stamp.Some? && frame.catalogTs < v.stamp.value);
            var isSame := v.stamp == Some(frame.catalogTs);
            var instruments, features := if isSame then v.instruments else [], if isSame then v.features else [];
            var isHeld := exists i :: 0 <= i < |features| && features[i].feature == frame.feature;
            && (isRefused ==> w == v)
            && (!isRefused ==>
                  && w.stamp == Some(frame.catalogTs) && w.instruments == instruments
                  && w.instrumentTotal == (if isSame then v.instrumentTotal else None)
                  && |w.features| == |features| + (if isHeld then 0 else 1)
                  && forall x :: x in w.features <==> x == frame || (x in features && x.feature != frame.feature))
  {
    if frame.feature >= frame.totalCount || (v.stamp.Some? && frame.catalogTs < v.stamp.value) {
      return;
    }
    var features := if v.stamp == Some(frame.catalogTs) then v.features else [];
    var index := FeatureIndex(features, frame.feature);
    if index.Some? {
      FeatureReplaced(features, index.value, frame);
    }
    hide FeatureIndex;
  }

  lemma FeatureReplaced(held: seq<CatalogFeature>, i: nat, frame: CatalogFeature)
    requires i < |held| && held[i].feature == frame.feature
    requires forall a, b :: 0 <= a < b < |held| ==> held[a].feature != held[b].feature
    ensures forall x :: x in held[i := frame] <==> x == frame || (x in held && x.feature != frame.feature)
  {
    var after := held[i := frame];
    assert after[i] == frame;
    forall x | x in held && x.feature != frame.feature
      ensures x in after
    {
      var k :| 0 <= k < |held| && held[k] == x;
      assert after[k] == x;
    }
  }

  // ---------------------------------------------------------------- and that enough of them complete the catalog

  datatype CatalogFrame = OfInstrument(instrument: CatalogInstrument) | OfFeature(feature: CatalogFeature)

  function Taken(v: CatalogView, frames: seq<CatalogFrame>): CatalogView
    decreases |frames|
  {
    if frames == [] then v
    else
      var before := Taken(v, frames[..|frames| - 1]);
      match frames[|frames| - 1]
      case OfInstrument(frame) => AcceptInstrument(before, frame)
      case OfFeature(frame) => AcceptFeature(before, frame)
  }

  /** A frame an engine sends of one catalog: its stamp, its total of that kind, a feature's id within it. */
  predicate OfCatalog(frame: CatalogFrame, stamp: I64, instruments: U16, features: U16) {
    match frame
    case OfInstrument(i) => i.catalogTs == stamp && i.totalCount == instruments
    case OfFeature(f) => f.catalogTs == stamp && f.totalCount == features && f.feature < features
  }

  ghost function InstrumentIds(frames: seq<CatalogFrame>): set<int> {
    set i | 0 <= i < |frames| && frames[i].OfInstrument? :: frames[i].instrument.instrument
  }

  ghost function FeatureIds(frames: seq<CatalogFrame>): set<int> {
    set i | 0 <= i < |frames| && frames[i].OfFeature? :: frames[i].feature.feature
  }

  function HeldIds(instruments: seq<CatalogInstrument>): set<int> {
    set i | 0 <= i < |instruments| :: instruments[i].instrument
  }

  lemma {:induction false} HeldIdsCount(instruments: seq<CatalogInstrument>)
    requires forall i, j :: 0 <= i < j < |instruments| ==> instruments[i].instrument != instruments[j].instrument
    ensures |HeldIds(instruments)| == |instruments|
    decreases |instruments|
  {
    if instruments != [] {
      var front, last := instruments[..|instruments| - 1], instruments[|instruments| - 1];
      HeldIdsCount(front);
      assert HeldIds(instruments) == HeldIds(front) + {last.instrument};
    }
  }

  lemma IdsGrow(front: seq<CatalogFrame>, last: CatalogFrame)
    ensures InstrumentIds(front + [last])
         == InstrumentIds(front) + if last.OfInstrument? then {last.instrument.instrument} else {}
    ensures FeatureIds(front + [last]) == FeatureIds(front) + if last.OfFeature? then {last.feature.feature} else {}
  {
    var frames := front + [last];
    assert forall i :: 0 <= i < |front| ==> frames[i] == front[i];
    assert frames[|front|] == last;
  }

  ghost predicate Gathered(v: CatalogView, frames: seq<CatalogFrame>, stamp: I64, instruments: U16) {
    && Assembled(v) && v.stamp == Some(stamp)
    && HeldIds(v.instruments) == InstrumentIds(frames) && IdsOf(v.features) == FeatureIds(frames)
    && (InstrumentIds(frames) != {} ==> v.instrumentTotal == Some(instruments))
    && (forall i :: 0 <= i < |v.features| ==> v.features[i].feature in FeatureIds(frames))
  }

  lemma InstrumentGathers(v: CatalogView, front: seq<CatalogFrame>, frame: CatalogInstrument, stamp: I64)
    requires Gathered(v, front, stamp, frame.totalCount) && frame.catalogTs == stamp
    requires |InstrumentIds(front + [OfInstrument(frame)])| <= frame.totalCount
    ensures Gathered(AcceptInstrument(v, frame), front + [OfInstrument(frame)], stamp, frame.totalCount)
  {
    var w, frames := AcceptInstrument(v, frame), front + [OfInstrument(frame)];
    IdsGrow(front, OfInstrument(frame));
    InstrumentFrameIsTaken(v, frame);
    AcceptingInstrumentKeeps(v, frame);
    HeldIdsCount(v.instruments);
    hide AcceptInstrument, Assembled;
    if frame.instrument !in HeldIds(v.instruments) {
      assert |InstrumentIds(frames)| == |HeldIds(v.instruments)| + 1;
    }
    assert forall x :: x in w.instruments <==> x == frame || (x in v.instruments && x.instrument != frame.instrument);
    SameIds(v.instruments, w.instruments, frame);
  }

  lemma SameIds(before: seq<CatalogInstrument>, after: seq<CatalogInstrument>, frame: CatalogInstrument)
    requires forall x :: x in after <==> x == frame || (x in before && x.instrument != frame.instrument)
    ensures HeldIds(after) == HeldIds(before) + {frame.instrument}
  {
    forall id | id in HeldIds(before) && id != frame.instrument
      ensures id in HeldIds(after)
    {
      var i :| 0 <= i < |before| && before[i].instrument == id;
      assert before[i] in after;
      var k :| 0 <= k < |after| && after[k] == before[i];
    }
    assert frame in after;
    var k :| 0 <= k < |after| && after[k] == frame;
    forall id | id in HeldIds(after)
      ensures id in HeldIds(before) + {frame.instrument}
    {
      var j :| 0 <= j < |after| && after[j].instrument == id;
      assert after[j] in after;
      if after[j] != frame {
        var i :| 0 <= i < |before| && before[i] == after[j];
      }
    }
  }

  lemma SameFeatureIds(before: seq<CatalogFeature>, after: seq<CatalogFeature>, frame: CatalogFeature)
    requires forall x :: x in after <==> x == frame || (x in before && x.feature != frame.feature)
    ensures IdsOf(after) == IdsOf(before) + {frame.feature}
  {
    forall id | id in IdsOf(before) && id != frame.feature
      ensures id in IdsOf(after)
    {
      var i :| 0 <= i < |before| && before[i].feature == id;
      assert before[i] in after;
      var k :| 0 <= k < |after| && after[k] == before[i];
    }
    assert frame in after;
    var k :| 0 <= k < |after| && after[k] == frame;
    forall id | id in IdsOf(after)
      ensures id in IdsOf(before) + {frame.feature}
    {
      var j :| 0 <= j < |after| && after[j].feature == id;
      assert after[j] in after;
      if after[j] != frame {
        var i :| 0 <= i < |before| && before[i] == after[j];
      }
    }
  }

  lemma FeatureGathers(v: CatalogView, front: seq<CatalogFrame>, frame: CatalogFeature, stamp: I64, instruments: U16)
    requires Gathered(v, front, stamp, instruments) && frame.catalogTs == stamp && frame.feature < frame.totalCount
    ensures Gathered(AcceptFeature(v, frame), front + [OfFeature(frame)], stamp, instruments)
  {
    var w, frames := AcceptFeature(v, frame), front + [OfFeature(frame)];
    IdsGrow(front, OfFeature(frame));
    FeatureFrameIsTaken(v, frame);
    AcceptingFeatureKeeps(v, frame);
    hide AcceptFeature, Assembled;
    SameFeatureIds(v.features, w.features, frame);
    forall i | 0 <= i < |w.features|
      ensures w.features[i].feature in FeatureIds(frames)
    {
      assert w.features[i].feature in IdsOf(w.features);
    }
  }

  /** Frames of one catalog, in any order and however often repeated, are all held. */
  lemma {:induction false} FramesAreGathered(v: CatalogView, frames: seq<CatalogFrame>, stamp: I64,
                                             instruments: U16, features: U16)
    requires Assembled(v) && (v.stamp.Some? ==> v.stamp.value < stamp) && frames != []
    requires forall frame :: frame in frames ==> OfCatalog(frame, stamp, instruments, features)
    requires |InstrumentIds(frames)| <= instruments
    ensures Gathered(Taken(v, frames), frames, stamp, instruments)
    decreases |frames|
  {
    var front, last := frames[..|frames| - 1], frames[|frames| - 1];
    assert frames == front + [last] && last in frames;
    IdsGrow(front, last);
    if front == [] {
      FirstFrameGathers(v, last, stamp, instruments, features);
    } else {
      assert InstrumentIds(front) <= InstrumentIds(frames);
      SubsetIsNoLarger(InstrumentIds(front), InstrumentIds(frames));
      FramesAreGathered(v, front, stamp, instruments, features);
      match last
      case OfInstrument(frame) => InstrumentGathers(Taken(v, front), front, frame, stamp);
      case OfFeature(frame) => FeatureGathers(Taken(v, front), front, frame, stamp, instruments);
    }
  }

  lemma SubsetIsNoLarger(a: set<int>, b: set<int>)
    requires a <= b
    ensures |a| <= |b|
  {
    assert b == a + (b - a);
  }

  /** The first frame of a newer stamp is as if it had come to an empty assembly of that stamp. */
  lemma FirstFrameGathers(v: CatalogView, frame: CatalogFrame, stamp: I64, instruments: U16, features: U16)
    requires Assembled(v) && (v.stamp.Some? ==> v.stamp.value < stamp)
    requires OfCatalog(frame, stamp, instruments, features) && |InstrumentIds([frame])| <= instruments
    ensures Gathered(Taken(v, [frame]), [frame], stamp, instruments)
  {
    var empty := CatalogView(Some(stamp), [], [], None);
    assert [frame][..0] == [] && Taken(v, []) == v;
    assert Gathered(empty, [], stamp, instruments) by {
      assert InstrumentIds([]) == {} && FeatureIds([]) == {};
    }
    assert [] + [frame] == [frame];
    match frame
    case OfInstrument(i) =>
      assert AcceptInstrument(v, i) == AcceptInstrument(empty, i);
      InstrumentGathers(empty, [], i, stamp);
    case OfFeature(f) =>
      assert AcceptFeature(v, f) == AcceptFeature(empty, f);
      FeatureGathers(empty, [], f, stamp, instruments);
  }

  /** So once every instrument and every feature of a catalog has come, in any order, the catalog builds. */
  lemma CompleteCatalogsBuild(v: CatalogView, frames: seq<CatalogFrame>, stamp: I64, instruments: U16, features: U16,
                              reported: LifecycleReport)
    requires Assembled(v) && (v.stamp.Some? ==> v.stamp.value < stamp) && frames != []
    requires forall frame :: frame in frames ==> OfCatalog(frame, stamp, instruments, features)
    requires instruments > 0 && |InstrumentIds(frames)| == instruments
    requires |FeatureIds(frames)| == features == reported.featureCount
    ensures Taken(v, frames).stamp == Some(stamp) && Build(Taken(v, frames), reported).Some?
  {
    var w := Taken(v, frames);
    FramesAreGathered(v, frames, stamp, instruments, features);
    hide Taken, Build, InstrumentIds, FeatureIds;
    HeldIdsCount(w.instruments);
    DistinctIdsCount(w.features);
    BuildsExactlyWhenWhole(w, reported);
    FeatureIdsAreInRange(frames, stamp, instruments, features);
  }

  lemma FeatureIdsAreInRange(frames: seq<CatalogFrame>, stamp: I64, instruments: U16, features: U16)
    requires forall frame :: frame in frames ==> OfCatalog(frame, stamp, instruments, features)
    ensures forall id :: id in FeatureIds(frames) ==> id < features
  {
    forall i | 0 <= i < |frames| && frames[i].OfFeature?
      ensures frames[i].feature.feature < features
    {
      assert OfCatalog(frames[i], stamp, instruments, features);
    }
  }

  // ---------------------------------------------------------------- the assembly itself

  class CatalogAssembly {
    var stamp: Option<I64>
    var instruments: seq<CatalogInstrument>
    var features: seq<CatalogFeature>
    var instrumentTotal: Option<U16>

    function View(): CatalogView
      reads this
    {
      CatalogView(stamp, instruments, features, instrumentTotal)
    }

    constructor ()
      ensures View() == NEW_CATALOG
    {
      stamp, instruments, features, instrumentTotal := None, [], [], None;
    }

    method AdoptStamp(newStamp: I64) returns (belongs: bool)
      modifies this
      ensures (View(), belongs) == Adopt(old(View()), newStamp)
    {
      if stamp.Some? && newStamp < stamp.value {
        return false;
      }
      if stamp.Some? && newStamp == stamp.value {
        return true;
      }
      stamp, instruments, features, instrumentTotal := Some(newStamp), [], [], None;
      belongs := true;
    }

    method TakeInstrument(frame: CatalogInstrument)
      modifies this
      ensures View() == AcceptInstrument(old(View()), frame)
    {
      var belongs := AdoptStamp(frame.catalogTs);
      if !belongs {
        return;
      }
      instrumentTotal := Some(frame.totalCount);
      match InstrumentIndex(instruments, frame.instrument) {
        case Some(index) => instruments := instruments[index := frame];
        case None =>
          if |instruments| < frame.totalCount {
            instruments := instruments + [frame];
          }
      }
    }

    method TakeFeature(frame: CatalogFeature)
      modifies this
      ensures View() == AcceptFeature(old(View()), frame)
    {
      if frame.feature >= frame.totalCount {
        return;
      }
      var belongs := AdoptStamp(frame.catalogTs);
      if !belongs {
        return;
      }
      match FeatureIndex(features, frame.feature) {
        case Some(index) => features := features[index := frame];
        case None => features := features + [frame];
      }
    }

    method BuildCatalog(reported: LifecycleReport) returns (built: Option<UiCatalog>)
      ensures built == Build(View(), reported)
    {
      if !IsComplete(View(), reported.featureCount) {
        return None;
      }
      var rows := AllShown(SortedById(instruments));
      var names := seq(|features|, _ => NO_NAME);
      ghost var blank := names;
      for i := 0 to |features|
        invariant FilledNames(blank, features[..i]) == Some(names) && |names| == |features|
      {
        assert features[..i + 1][..i] == features[..i];
        if features[i].feature >= |names| {
          AbandonedStays(blank, features, i + 1);
          return None;
        }
        names := names[features[i].feature := features[i].name];
      }
      assert features[..|features|] == features;
      built := Some(UiCatalog(reported.executionMode, Max(0, reported.spinIntervalUs), rows, names));
    }
  }

  lemma {:induction false} AbandonedStays(names: seq<WireName>, features: seq<CatalogFeature>, n: nat)
    requires n <= |features| && FilledNames(names, features[..n]).None?
    ensures FilledNames(names, features).None?
    decreases |features|
  {
    if n < |features| {
      assert features[..|features| - 1][..n] == features[..n];
      AbandonedStays(names, features[..|features| - 1], n);
    } else {
      assert features[..n] == features;
    }
  }
}
