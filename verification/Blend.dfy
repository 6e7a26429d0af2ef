/** The HTP/LTP merge of show_control.cpp's `evaluate`: the working set it
    builds up intent by intent, and what that set means once every intent has
    been merged, said without reference to how it was built. */
module Blend {
  import opened Bytes

  type Capability = byte

  // Capability numbers of fixture_profile.h.
  const YELLOW: Capability := 9
  const PAN: Capability := 10
  const TILT: Capability := 11
  const SHUTTER_STROBE: Capability := 12
  const FOG: Capability := 16
  const FAN: Capability := 17

  /** Dimmer, the nine colour channels, ShutterStrobe, Fog and Fan. */
  predicate IsIntensityClass(cap: Capability) {
    cap <= YELLOW || cap == SHUTTER_STROBE || cap == FOG || cap == FAN
  }

  /** `rangeIndex < 0` and no name mean a linear write. */
  datatype Selection = Selection(rangeName: seq<byte>, hasName: bool, rangeIndex: int)

  const LINEAR: Selection := Selection([], false, -1)

  datatype CapIntent = CapIntent(fixtureId: nat, cap: Capability, norm01: real, sel: Selection)

  datatype AimIntent = AimIntent(fixtureId: nat, target: (real, real, real), isPoint: bool)

  predicate IsRangeSelect(ci: CapIntent) {
    ci.sel.hasName || ci.sel.rangeIndex >= 0
  }

  /** A cue's place in the firing order. */
  datatype Rank = Rank(priority: nat, activation: nat)

  predicate RankLess(a: Rank, b: Rank) {
    a.priority < b.priority || (a.priority == b.priority && a.activation < b.activation)
  }

  predicate RankLeq(a: Rank, b: Rank) {
    a == b || RankLess(a, b)
  }

  /** Blended by highest value; everything else goes to the latest writer. */
  predicate Htp(ci: CapIntent) {
    !IsRangeSelect(ci) && IsIntensityClass(ci.cap)
  }

  /** One intent of a live cue, with the value it brings to the merge. */
  datatype CapContribution = CapContribution(intent: CapIntent, value: real, rank: Rank) {
    predicate IsHtp() {
      Htp(intent)
    }
    function Key(): (nat, Capability) {
      (intent.fixtureId, intent.cap)
    }
  }

  /** Blended values are scaled by the cue's weight, others are taken as is. */
  function Contribution(ci: CapIntent, weight: real, rank: Rank): CapContribution {
    CapContribution(ci, if Htp(ci) then weight * ci.norm01 else ci.norm01, rank)
  }

  datatype AimContribution = AimContribution(intent: AimIntent, rank: Rank)

  datatype WorkingCap = WorkingCap(fixtureId: nat, cap: Capability, value: real, owner: Rank, sel: Selection) {
    function Key(): (nat, Capability) {
      (fixtureId, cap)
    }
  }

  datatype WorkingAim = WorkingAim(intent: AimIntent, owner: Rank)

  // ---- what the working set means ----------------------------------------

  /** The contributions to one key, in order. */
  function ForKey(cs: seq<CapContribution>, k: (nat, Capability)): (r: seq<CapContribution>)
    ensures forall c :: c in r ==> c in cs && c.Key() == k
  {
    if cs == [] then []
    else ForKey(cs[..|cs| - 1], k) + if cs[|cs| - 1].Key() == k then [cs[|cs| - 1]] else []
  }

  /** The keys contributed to, in order of first appearance. */
  function FirstKeys(cs: seq<CapContribution>): seq<(nat, Capability)> {
    if cs == [] then []
    else
      var ks := FirstKeys(cs[..|cs| - 1]);
      var k := cs[|cs| - 1].Key();
      if k in ks then ks else ks + [k]
  }

  /** Position just past the last contribution that is not blended by value. */
  function TailStart(cs: seq<CapContribution>): (n: nat)
    ensures n <= |cs|
    ensures n > 0 ==> !cs[n - 1].IsHtp()
    ensures forall i :: n <= i < |cs| ==> cs[i].IsHtp()
  {
    if cs == [] then 0
    else if !cs[|cs| - 1].IsHtp() then |cs|
    else TailStart(cs[..|cs| - 1])
  }

  predicate IsMaximum(v: real, cs: seq<CapContribution>) {
    (exists i :: 0 <= i < |cs| && cs[i].value == v) &&
    (forall i :: 0 <= i < |cs| ==> cs[i].value <= v)
  }

  /** The last write that is not blended by value is above all blended ones
      after it. */
  predicate LastWriteStands(cs: seq<CapContribution>) {
    var n := TailStart(cs);
    n > 0 && forall i :: n <= i < |cs| ==> cs[i].value < cs[n - 1].value
  }

  /** `v` with selection `sel` is the blend of the contributions `cs` to one key:
      the last write that is not blended by value stands, unless a blended one
      after it reaches its value; then the highest of those wins, linearly. */
  predicate IsBlend(cs: seq<CapContribution>, v: real, sel: Selection) {
    var n := TailStart(cs);
    if LastWriteStands(cs) then v == cs[n - 1].value && sel == cs[n - 1].intent.sel
    else IsMaximum(v, cs[n..]) && sel == LINEAR
  }

  /** The working set is the blend of the contributions merged so far. */
  predicate Represents(ws: seq<WorkingCap>, cs: seq<CapContribution>) {
    |ws| == |FirstKeys(cs)| &&
    forall i :: 0 <= i < |ws| ==> EntryBlends(ws[i], cs, FirstKeys(cs)[i])
  }

  predicate EntryBlends(e: WorkingCap, cs: seq<CapContribution>, k: (nat, Capability)) {
    e.Key() == k && IsBlend(ForKey(cs, k), e.value, e.sel)
  }

  predicate OwnedUpTo(ws: seq<WorkingCap>, r: Rank) {
    forall i :: 0 <= i < |ws| ==> RankLeq(ws[i].owner, r)
  }

  lemma {:induction false} FirstKeysDistinct(cs: seq<CapContribution>)
    ensures forall i, j :: 0 <= i < j < |FirstKeys(cs)| ==> FirstKeys(cs)[i] != FirstKeys(cs)[j]
    ensures forall k :: k in FirstKeys(cs) <==> exists i :: 0 <= i < |cs| && cs[i].Key() == k
  {
    if cs == [] {
    } else {
      var front := cs[..|cs| - 1];
      FirstKeysDistinct(front);
      assert forall i :: 0 <= i < |cs| ==> cs[i] == if i < |front| then front[i] else cs[|cs| - 1];
      forall k ensures k in FirstKeys(cs) <==> exists i :: 0 <= i < |cs| && cs[i].Key() == k {
        if k in FirstKeys(front) {
          var i :| 0 <= i < |front| && front[i].Key() == k;
          assert cs[i].Key() == k;
        }
        if exists i :: 0 <= i < |cs| && cs[i].Key() == k {
          var i :| 0 <= i < |cs| && cs[i].Key() == k;
          if i < |front| { assert front[i].Key() == k; }
        }
      }
    }
  }

  lemma {:induction false} ForKeyEmpty(cs: seq<CapContribution>, k: (nat, Capability))
    requires forall i :: 0 <= i < |cs| ==> cs[i].Key() != k
    ensures ForKey(cs, k) == []
  {
    if cs == [] {
    } else {
      ForKeyEmpty(cs[..|cs| - 1], k);
    }
  }

  lemma {:induction false} ForKeyNonEmpty(cs: seq<CapContribution>, k: (nat, Capability))
    requires exists i :: 0 <= i < |cs| && cs[i].Key() == k
    ensures ForKey(cs, k) != []
  {
    var i :| 0 <= i < |cs| && cs[i].Key() == k;
    if i < |cs| - 1 {
      assert cs[..|cs| - 1][i].Key() == k;
      ForKeyNonEmpty(cs[..|cs| - 1], k);
    }
  }

  lemma TailStartPush(cs: seq<CapContribution>, c: CapContribution)
    ensures TailStart(cs + [c]) == if c.IsHtp() then TailStart(cs) else |cs| + 1
  {
    assert (cs + [c])[..|cs|] == cs;
  }

  /** A blended write that reaches the current value takes over. */
  lemma HtpReaches(cs: seq<CapContribution>, c: CapContribution, v: real, sel: Selection)
    requires IsBlend(cs, v, sel) && c.IsHtp() && c.value >= v
    ensures IsBlend(cs + [c], c.value, LINEAR)
  {
    TailStartPush(cs, c);
    var all, n := cs + [c], TailStart(cs);
    assert all[n..] == cs[n..] + [c];
    assert all[|cs|] == c && all[n..][|cs| - n] == c;
    if n > 0 {
      assert all[n - 1] == cs[n - 1];
      if !LastWriteStands(cs) {
        var j :| n <= j < |cs| && cs[j].value >= cs[n - 1].value;
        assert all[j] == cs[j];
      }
      assert !LastWriteStands(all);
    }
    forall i | 0 <= i < |cs[n..]| ensures cs[n..][i].value <= v {
      assert cs[n..][i] == cs[n + i];
    }
  }

  lemma MaximumStays(cs: seq<CapContribution>, c: CapContribution, v: real)
    requires IsMaximum(v, cs) && c.value <= v
    ensures IsMaximum(v, cs + [c])
  {
    var i :| 0 <= i < |cs| && cs[i].value == v;
    assert (cs + [c])[i].value == v;
  }

  /** A blended write below the current value changes nothing. */
  lemma HtpFallsShort(cs: seq<CapContribution>, c: CapContribution, v: real, sel: Selection)
    requires IsBlend(cs, v, sel) && c.IsHtp() && c.value < v
    ensures IsBlend(cs + [c], v, sel)
  {
    TailStartPush(cs, c);
    var all, n := cs + [c], TailStart(cs);
    if LastWriteStands(cs) {
      assert LastWriteStands(all);
    } else {
      assert all[n..] == cs[n..] + [c];
      MaximumStays(cs[n..], c, v);
      if n > 0 {
        var j :| n <= j < |cs| && cs[j].value >= cs[n - 1].value;
        assert all[j] == cs[j] && all[n - 1] == cs[n - 1];
      }
    }
  }

  lemma BlendStep(cs: seq<CapContribution>, c: CapContribution, v: real, sel: Selection)
    requires IsBlend(cs, v, sel)
    ensures c.IsHtp() && c.value >= v ==> IsBlend(cs + [c], c.value, LINEAR)
    ensures c.IsHtp() && c.value < v ==> IsBlend(cs + [c], v, sel)
    ensures !c.IsHtp() ==> IsBlend(cs + [c], c.value, c.intent.sel)
  {
    if !c.IsHtp() {
      TailStartPush(cs, c);
    } else if c.value >= v {
      HtpReaches(cs, c, v, sel);
    } else {
      HtpFallsShort(cs, c, v, sel);
    }
  }

  lemma BlendFirst(c: CapContribution)
    ensures IsBlend([c], c.value, if c.IsHtp() then LINEAR else c.intent.sel)
  {
    TailStartPush([], c);
    assert [] + [c] == [c];
    if c.IsHtp() { assert [c][0..] == [c]; assert [c][0].value == c.value; }
  }

  // ---- one merge step ----------------------------------------------------

  predicate HasKey(ws: seq<WorkingCap>, i: int, k: (nat, Capability)) {
    0 <= i < |ws| && ws[i].Key() == k && forall j :: 0 <= j < i ==> ws[j].Key() != k
  }

  /** The entry after a write by `c`; the writer's rank decides when the write is
      not blended by value. */
  function Overwrite(e: WorkingCap, c: CapContribution): WorkingCap {
    if c.IsHtp() then
      if c.value >= e.value then e.(value := c.value, sel := LINEAR) else e
    else if RankLeq(e.owner, c.rank) then
      e.(value := c.value, owner := c.rank, sel := c.intent.sel)
    else e
  }

  function Entry(c: CapContribution): WorkingCap {
    WorkingCap(c.intent.fixtureId, c.intent.cap, c.value, c.rank, if c.IsHtp() then LINEAR else c.intent.sel)
  }

  /** The linear search of the merge loop, then overwrite or append. */
  method MergeCap(ws: seq<WorkingCap>, c: CapContribution, ghost cs: seq<CapContribution>)
      returns (ws': seq<WorkingCap>)
    requires Represents(ws, cs) && OwnedUpTo(ws, c.rank)
    ensures Represents(ws', cs + [c]) && OwnedUpTo(ws', c.rank)
  {
    var i := 0;
    while i < |ws|
      invariant i <= |ws|
      invariant forall j :: 0 <= j < i ==> ws[j].Key() != c.Key()
    {
      if ws[i].fixtureId == c.intent.fixtureId && ws[i].cap == c.intent.cap {
        ws' := ws[i := Overwrite(ws[i], c)];
        MergeFound(ws, i, c, cs);
        return;
      }
      i := i + 1;
    }
    ws' := ws + [Entry(c)];
    MergeNew(ws, c, cs);
  }

  lemma ForKeyPush(cs: seq<CapContribution>, c: CapContribution, k: (nat, Capability))
    ensures ForKey(cs + [c], k) == if k == c.Key() then ForKey(cs, k) + [c] else ForKey(cs, k)
  {
    assert (cs + [c])[..|cs|] == cs;
  }

  lemma FirstKeysPush(cs: seq<CapContribution>, c: CapContribution)
    ensures FirstKeys(cs + [c]) == if c.Key() in FirstKeys(cs) then FirstKeys(cs) else FirstKeys(cs) + [c.Key()]
  {
    assert (cs + [c])[..|cs|] == cs;
  }

  lemma OtherEntryKept(e: WorkingCap, cs: seq<CapContribution>, c: CapContribution, k: (nat, Capability))
    requires EntryBlends(e, cs, k) && k != c.Key()
    ensures EntryBlends(e, cs + [c], k)
  {
    ForKeyPush(cs, c, k);
  }

  lemma EntryOverwritten(e: WorkingCap, cs: seq<CapContribution>, c: CapContribution)
    requires EntryBlends(e, cs, c.Key()) && RankLeq(e.owner, c.rank)
    ensures EntryBlends(Overwrite(e, c), cs + [c], c.Key()) && RankLeq(Overwrite(e, c).owner, c.rank)
  {
    ForKeyPush(cs, c, c.Key());
    BlendStep(ForKey(cs, c.Key()), c, e.value, e.sel);
  }

  lemma EntryCreated(cs: seq<CapContribution>, c: CapContribution)
    requires c.Key() !in FirstKeys(cs)
    ensures EntryBlends(Entry(c), cs + [c], c.Key())
  {
    FirstKeysDistinct(cs);
    ForKeyEmpty(cs, c.Key());
    ForKeyPush(cs, c, c.Key());
    assert [] + [c] == [c];
    BlendFirst(c);
  }

  lemma MergeFound(ws: seq<WorkingCap>, i: nat, c: CapContribution, cs: seq<CapContribution>)
    requires Represents(ws, cs) && OwnedUpTo(ws, c.rank)
    requires HasKey(ws, i, c.Key())
    ensures Represents(ws[i := Overwrite(ws[i], c)], cs + [c])
    ensures OwnedUpTo(ws[i := Overwrite(ws[i], c)], c.rank)
  {
    var keys, e := FirstKeys(cs), Overwrite(ws[i], c);
    assert EntryBlends(ws[i], cs, keys[i]) && c.Key() == keys[i] && keys[i] in keys;
    FirstKeysPush(cs, c);
    FirstKeysDistinct(cs);
    EntryOverwritten(ws[i], cs, c);
    forall j | 0 <= j < |ws| ensures EntryBlends(ws[i := e][j], cs + [c], keys[j]) {
      if j != i { OtherEntryKept(ws[j], cs, c, keys[j]); }
    }
    assert Represents(ws[i := e], cs + [c]);
  }

  lemma MergeNew(ws: seq<WorkingCap>, c: CapContribution, cs: seq<CapContribution>)
    requires Represents(ws, cs) && OwnedUpTo(ws, c.rank)
    requires forall j :: 0 <= j < |ws| ==> ws[j].Key() != c.Key()
    ensures Represents(ws + [Entry(c)], cs + [c])
    ensures OwnedUpTo(ws + [Entry(c)], c.rank)
  {
    var keys := FirstKeys(cs);
    assert forall j :: 0 <= j < |ws| ==> EntryBlends(ws[j], cs, keys[j]) && ws[j].Key() == keys[j];
    FirstKeysPush(cs, c);
    EntryCreated(cs, c);
    var ws' := ws + [Entry(c)];
    forall j | 0 <= j < |ws'| ensures EntryBlends(ws'[j], cs + [c], FirstKeys(cs + [c])[j]) {
      if j < |ws| { OtherEntryKept(ws[j], cs, c, keys[j]); }
    }
  }

  // ---- aims --------------------------------------------------------------

  function AimsFor(as_: seq<AimContribution>, f: nat): (r: seq<AimContribution>)
    ensures forall a :: a in r ==> a in as_ && a.intent.fixtureId == f
  {
    if as_ == [] then []
    else AimsFor(as_[..|as_| - 1], f) + if as_[|as_| - 1].intent.fixtureId == f then [as_[|as_| - 1]] else []
  }

  function FirstFixtures(as_: seq<AimContribution>): seq<nat> {
    if as_ == [] then []
    else
      var fs := FirstFixtures(as_[..|as_| - 1]);
      var f := as_[|as_| - 1].intent.fixtureId;
      if f in fs then fs else fs + [f]
  }

  /** The entry is the last aim at fixture `f`, owned by the cue it came from. */
  predicate LastAim(w: WorkingAim, as_: seq<AimContribution>, f: nat) {
    var mine := AimsFor(as_, f);
    mine != [] && w == WorkingAim(mine[|mine| - 1].intent, mine[|mine| - 1].rank)
  }

  predicate RepresentsAims(ws: seq<WorkingAim>, as_: seq<AimContribution>) {
    |ws| == |FirstFixtures(as_)| &&
    forall i :: 0 <= i < |ws| ==> LastAim(ws[i], as_, FirstFixtures(as_)[i])
  }

  predicate AimsRanked(as_: seq<AimContribution>) {
    forall i, j :: 0 <= i < j < |as_| ==> RankLeq(as_[i].rank, as_[j].rank)
  }

  /** The entry is an aim at its fixture, and none came from a higher-ranked cue. */
  predicate HighestAim(w: WorkingAim, as_: seq<AimContribution>) {
    AimContribution(w.intent, w.owner) in as_ &&
    forall a :: a in as_ && a.intent.fixtureId == w.intent.fixtureId ==> RankLeq(a.rank, w.owner)
  }

  /** `ai` is the last of these aims, and none came from a higher-ranked cue. */
  predicate AimWins(ai: AimIntent, mine: seq<AimContribution>) {
    mine != [] && ai == mine[|mine| - 1].intent && forall a :: a in mine ==> RankLeq(a.rank, mine[|mine| - 1].rank)
  }

  lemma {:induction false} AimsForMembers(as_: seq<AimContribution>, f: nat)
    ensures forall a :: a in AimsFor(as_, f) <==> a in as_ && a.intent.fixtureId == f
  {
    if as_ == [] {
    } else {
      AimsForMembers(as_[..|as_| - 1], f);
      assert as_ == as_[..|as_| - 1] + [as_[|as_| - 1]];
    }
  }

  lemma {:induction false} AimsForRanked(as_: seq<AimContribution>, f: nat)
    requires AimsRanked(as_)
    ensures AimsRanked(AimsFor(as_, f))
  {
    if as_ == [] {
    } else {
      var front, last := as_[..|as_| - 1], as_[|as_| - 1];
      AimsForRanked(front, f);
      forall a | a in AimsFor(front, f) ensures RankLeq(a.rank, last.rank) {
        var i :| 0 <= i < |front| && front[i] == a;
        assert as_[i] == a && as_[|as_| - 1] == last;
      }
    }
  }

  /** In rank order the last aim is one of the highest-ranked cue. */
  lemma LastAimIsHighest(w: WorkingAim, as_: seq<AimContribution>, f: nat)
    requires LastAim(w, as_, f) && AimsRanked(as_)
    ensures HighestAim(w, as_)
  {
    var mine := AimsFor(as_, f);
    AimsForMembers(as_, f);
    AimsForRanked(as_, f);
    assert mine[|mine| - 1] in mine;
    forall a | a in as_ && a.intent.fixtureId == f ensures RankLeq(a.rank, w.owner) {
      var i :| 0 <= i < |mine| && mine[i] == a;
    }
  }

  predicate AimsOwnedUpTo(ws: seq<WorkingAim>, r: Rank) {
    forall i :: 0 <= i < |ws| ==> RankLeq(ws[i].owner, r)
  }

  lemma {:induction false} FirstFixturesDistinct(as_: seq<AimContribution>)
    ensures forall i, j :: 0 <= i < j < |FirstFixtures(as_)| ==> FirstFixtures(as_)[i] != FirstFixtures(as_)[j]
    ensures forall f :: f in FirstFixtures(as_) <==> exists i :: 0 <= i < |as_| && as_[i].intent.fixtureId == f
  {
    if as_ == [] {
    } else {
      var front := as_[..|as_| - 1];
      FirstFixturesDistinct(front);
      assert forall i :: 0 <= i < |as_| ==> as_[i] == if i < |front| then front[i] else as_[|as_| - 1];
      forall f ensures f in FirstFixtures(as_) <==> exists i :: 0 <= i < |as_| && as_[i].intent.fixtureId == f {
        if f in FirstFixtures(front) {
          var i :| 0 <= i < |front| && front[i].intent.fixtureId == f;
          assert as_[i].intent.fixtureId == f;
        }
        if exists i :: 0 <= i < |as_| && as_[i].intent.fixtureId == f {
          var i :| 0 <= i < |as_| && as_[i].intent.fixtureId == f;
          if i < |front| { assert front[i].intent.fixtureId == f; }
        }
      }
    }
  }

  /** The linear search of the aim loop. */
  method FindAim(ws: seq<WorkingAim>, f: nat) returns (i: nat)
    ensures i <= |ws| && (i < |ws| ==> ws[i].intent.fixtureId == f)
    ensures forall j :: 0 <= j < i ==> ws[j].intent.fixtureId != f
  {
    i := 0;
    while i < |ws|
      invariant i <= |ws|
      invariant forall j :: 0 <= j < i ==> ws[j].intent.fixtureId != f
    {
      if ws[i].intent.fixtureId == f { return; }
      i := i + 1;
    }
  }

  /** Then overwrite or append. */
  method MergeAim(ws: seq<WorkingAim>, a: AimContribution, ghost as_: seq<AimContribution>)
      returns (ws': seq<WorkingAim>)
    requires RepresentsAims(ws, as_) && AimsOwnedUpTo(ws, a.rank)
    ensures RepresentsAims(ws', as_ + [a]) && AimsOwnedUpTo(ws', a.rank)
    ensures AimsRanked(as_ + [a]) ==> forall i :: 0 <= i < |ws'| ==> HighestAim(ws'[i], as_ + [a])
  {
    var i := FindAim(ws, a.intent.fixtureId);
    var w := WorkingAim(a.intent, a.rank);
    if i == |ws| {
      ws' := ws + [w];
    } else if RankLeq(ws[i].owner, a.rank) {
      ws' := ws[i := w];
    } else {
      ws' := ws;
    }
    AimMerged(ws, i, a, as_, ws');
  }

  lemma AimMerged(ws: seq<WorkingAim>, i: nat, a: AimContribution, as_: seq<AimContribution>, ws': seq<WorkingAim>)
    requires RepresentsAims(ws, as_) && AimsOwnedUpTo(ws, a.rank) && i <= |ws|
    requires i < |ws| ==> ws[i].intent.fixtureId == a.intent.fixtureId
    requires i == |ws| ==> forall j :: 0 <= j < i ==> ws[j].intent.fixtureId != a.intent.fixtureId
    requires ws' == if i < |ws| then ws[i := WorkingAim(a.intent, a.rank)] else ws + [WorkingAim(a.intent, a.rank)]
    ensures RepresentsAims(ws', as_ + [a]) && AimsOwnedUpTo(ws', a.rank)
    ensures AimsRanked(as_ + [a]) ==> forall i :: 0 <= i < |ws'| ==> HighestAim(ws'[i], as_ + [a])
  {
    if i < |ws| { AimFound(ws, i, a, as_); } else { AimNew(ws, a, as_); }
    AllHighest(ws', as_ + [a]);
  }

  lemma AllHighest(ws: seq<WorkingAim>, as_: seq<AimContribution>)
    requires RepresentsAims(ws, as_)
    ensures AimsRanked(as_) ==> forall i :: 0 <= i < |ws| ==> HighestAim(ws[i], as_)
  {
    if AimsRanked(as_) {
      forall i | 0 <= i < |ws| ensures HighestAim(ws[i], as_) {
        LastAimIsHighest(ws[i], as_, FirstFixtures(as_)[i]);
      }
    }
  }

  lemma AimsForPush(as_: seq<AimContribution>, a: AimContribution, f: nat)
    ensures AimsFor(as_ + [a], f) == if f == a.intent.fixtureId then AimsFor(as_, f) + [a] else AimsFor(as_, f)
  {
    assert (as_ + [a])[..|as_|] == as_;
  }

  lemma FirstFixturesPush(as_: seq<AimContribution>, a: AimContribution)
    ensures FirstFixtures(as_ + [a])
            == if a.intent.fixtureId in FirstFixtures(as_) then FirstFixtures(as_)
               else FirstFixtures(as_) + [a.intent.fixtureId]
  {
    assert (as_ + [a])[..|as_|] == as_;
  }

  lemma AimAt(w: WorkingAim, as_: seq<AimContribution>, f: nat)
    requires LastAim(w, as_, f)
    ensures w.intent.fixtureId == f
  {
    var mine := AimsFor(as_, f);
    assert mine[|mine| - 1] in mine;
  }

  lemma AimKept(w: WorkingAim, as_: seq<AimContribution>, a: AimContribution, f: nat)
    requires LastAim(w, as_, f) && f != a.intent.fixtureId
    ensures LastAim(w, as_ + [a], f)
  {
    AimsForPush(as_, a, f);
  }

  lemma AimTaken(as_: seq<AimContribution>, a: AimContribution)
    ensures LastAim(WorkingAim(a.intent, a.rank), as_ + [a], a.intent.fixtureId)
  {
    AimsForPush(as_, a, a.intent.fixtureId);
  }

  lemma AimFound(ws: seq<WorkingAim>, i: nat, a: AimContribution, as_: seq<AimContribution>)
    requires RepresentsAims(ws, as_) && i < |ws| && ws[i].intent.fixtureId == a.intent.fixtureId
    ensures RepresentsAims(ws[i := WorkingAim(a.intent, a.rank)], as_ + [a])
  {
    var fs := FirstFixtures(as_);
    AimAt(ws[i], as_, fs[i]);
    assert fs[i] in fs;
    FirstFixturesPush(as_, a);
    FirstFixturesDistinct(as_);
    AimTaken(as_, a);
    var ws' := ws[i := WorkingAim(a.intent, a.rank)];
    forall j | 0 <= j < |ws'| ensures LastAim(ws'[j], as_ + [a], fs[j]) {
      if j != i { AimKept(ws[j], as_, a, fs[j]); }
    }
  }

  lemma AimNew(ws: seq<WorkingAim>, a: AimContribution, as_: seq<AimContribution>)
    requires RepresentsAims(ws, as_)
    requires forall j :: 0 <= j < |ws| ==> ws[j].intent.fixtureId != a.intent.fixtureId
    ensures RepresentsAims(ws + [WorkingAim(a.intent, a.rank)], as_ + [a])
  {
    var fs := FirstFixtures(as_);
    forall j | 0 <= j < |ws| ensures fs[j] != a.intent.fixtureId { AimAt(ws[j], as_, fs[j]); }
    FirstFixturesPush(as_, a);
    AimTaken(as_, a);
    var ws' := ws + [WorkingAim(a.intent, a.rank)];
    forall j | 0 <= j < |ws'| ensures LastAim(ws'[j], as_ + [a], FirstFixtures(as_ + [a])[j]) {
      if j < |ws| { AimKept(ws[j], as_, a, fs[j]); }
    }
  }

  // ---- reading the blend -------------------------------------------------

  predicate Ranked(cs: seq<CapContribution>) {
    forall i, j :: 0 <= i < j < |cs| ==> RankLeq(cs[i].rank, cs[j].rank)
  }

  lemma {:induction false} ForKeyRanked(cs: seq<CapContribution>, k: (nat, Capability))
    requires Ranked(cs)
    ensures Ranked(ForKey(cs, k))
  {
    if cs == [] {
    } else {
      var front, last := cs[..|cs| - 1], cs[|cs| - 1];
      ForKeyRanked(front, k);
      forall c | c in ForKey(front, k) ensures RankLeq(c.rank, last.rank) {
        var i :| 0 <= i < |front| && front[i] == c;
        assert cs[i] == c && cs[|cs| - 1] == last;
      }
    }
  }

  /** A key that only blended writes reach gets their maximum, linearly. */
  lemma HtpTakesMaximum(cs: seq<CapContribution>, v: real, sel: Selection)
    requires IsBlend(cs, v, sel)
    requires forall i :: 0 <= i < |cs| ==> cs[i].IsHtp()
    ensures IsMaximum(v, cs) && sel == LINEAR
  {
    assert TailStart(cs) == 0;
    assert cs[0..] == cs;
  }

  /** What a blend is worth in its two pure cases: the maximum if all
      contributions are blended by value, the last one, of the highest rank, if
      none is. */
  predicate PureCases(cs: seq<CapContribution>, v: real, sel: Selection) {
    ((forall c :: c in cs ==> c.IsHtp()) ==> IsMaximum(v, cs) && sel == LINEAR) &&
    ((forall c :: c in cs ==> !c.IsHtp()) ==>
      cs != [] && v == cs[|cs| - 1].value && sel == cs[|cs| - 1].intent.sel &&
      forall c :: c in cs ==> RankLeq(c.rank, cs[|cs| - 1].rank))
  }

  lemma BlendValue(cs: seq<CapContribution>, v: real, sel: Selection)
    requires cs != [] && IsBlend(cs, v, sel) && Ranked(cs)
    ensures PureCases(cs, v, sel)
  {
    if forall c :: c in cs ==> c.IsHtp() {
      HtpTakesMaximum(cs, v, sel);
    } else if forall c :: c in cs ==> !c.IsHtp() {
      LtpTakesHighestRank(cs, v, sel);
    }
  }

  /** A key that no blended write reaches gets the last intent of the
      highest-ranked cue that contributed to it. */
  lemma LtpTakesHighestRank(cs: seq<CapContribution>, v: real, sel: Selection)
    requires cs != [] && IsBlend(cs, v, sel) && Ranked(cs)
    requires forall i :: 0 <= i < |cs| ==> !cs[i].IsHtp()
    ensures var last := cs[|cs| - 1];
            v == last.value && sel == last.intent.sel &&
            forall i :: 0 <= i < |cs| ==> RankLeq(cs[i].rank, last.rank)
  {
    assert TailStart(cs) == |cs|;
  }

  // ---- the same, contribution by contribution ----------------------------

  datatype Showing = Showing(value: real, sel: Selection)

  /** A blended write takes over where it reaches the value that shows; any other write
      takes over. */
  function Merged(before: Showing, c: CapContribution): Showing {
    if !(c.intent.sel.hasName || c.intent.sel.rangeIndex >= 0) && IsIntensityClass(c.intent.cap) then
      if c.value >= before.value then Showing(c.value, Selection([], false, -1)) else before
    else Showing(c.value, c.intent.sel)
  }

  function MergedAll(cs: seq<CapContribution>): Showing
    requires cs != []
  {
    if |cs| == 1 then
      Showing(cs[0].value, if cs[0].IsHtp() then LINEAR else cs[0].intent.sel)
    else Merged(MergedAll(cs[..|cs| - 1]), cs[|cs| - 1])
  }

  /** The blend of any contributions, blended ones and others in any order, is what
      taking them one by one leaves, and nothing else is. */
  lemma {:induction false} BlendIsMerge(cs: seq<CapContribution>, v: real, sel: Selection)
    requires cs != []
    ensures IsBlend(cs, v, sel) <==> Showing(v, sel) == MergedAll(cs)
  {
    MergedBlends(cs);
    if IsBlend(cs, v, sel) { BlendUnique(cs, v, sel, MergedAll(cs).value, MergedAll(cs).sel); }
  }

  lemma {:induction false} MergedBlends(cs: seq<CapContribution>)
    requires cs != []
    ensures IsBlend(cs, MergedAll(cs).value, MergedAll(cs).sel)
  {
    var front, last := cs[..|cs| - 1], cs[|cs| - 1];
    assert cs == front + [last];
    if front == [] {
      assert cs == [last];
      BlendFirst(last);
    } else {
      MergedBlends(front);
      BlendStep(front, last, MergedAll(front).value, MergedAll(front).sel);
    }
  }

  lemma BlendUnique(cs: seq<CapContribution>, v: real, sel: Selection, w: real, sel': Selection)
    requires IsBlend(cs, v, sel) && IsBlend(cs, w, sel')
    ensures v == w && sel == sel'
  {
    var tail := cs[TailStart(cs)..];
    if !LastWriteStands(cs) { assert IsMaximum(v, tail) && IsMaximum(w, tail); }
  }
}
