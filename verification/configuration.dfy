/** The configuration of the display switcher and the query that turns a monitor
    identifier into the input sources to use for it: a global pair of input sources,
    overridden by the first of six per-monitor sections whose identifier fragment
    occurs, ignoring case, in the queried monitor identifier. */
module Configuration {
  import opened Options
  import opened Ascii

  /** A video input of a monitor, identified by its numeric code. Its textual parser is
      not part of this model, so the value is opaque apart from its code. */
  datatype InputSource = InputSource(code: nat) {
    function Value(): nat { code }
  }

  /** Which USB event triggered the switch. */
  datatype SwitchDirection = Connect | Disconnect

  /** One optional input source per direction. */
  datatype InputSources = InputSources(onUsbConnect: Option<InputSource>, onUsbDisconnect: Option<InputSource>) {

    /** The input source configured for `direction`, if any. */
    function Source(direction: SwitchDirection): (r: Option<InputSource>)
      ensures direction == Connect ==> r == onUsbConnect
      ensures direction == Disconnect ==> r == onUsbDisconnect
    {
      match direction
      case Connect => onUsbConnect
      case Disconnect => onUsbDisconnect
    }

    /** These sources with `default` filling in every direction they leave unset. */
    function Merge(default: InputSources): (r: InputSources)
      ensures forall d :: r.Source(d) == Source(d).Or(default.Source(d))
    {
      InputSources(onUsbConnect.Or(default.onUsbConnect), onUsbDisconnect.Or(default.onUsbDisconnect))
    }
  }

  /** Sources with no direction configured. */
  const NoSources := InputSources(None, None)

  /** A pair of sources is determined by what it answers for the two directions. */
  lemma SourceDeterminesSources(a: InputSources, b: InputSources)
    ensures a == b <==> forall d :: a.Source(d) == b.Source(d)
  {
    if forall d :: a.Source(d) == b.Source(d) {
      assert a.Source(Connect) == b.Source(Connect);
      assert a.Source(Disconnect) == b.Source(Disconnect);
    }
  }

  /** A direction the overriding sources set is taken from them, whatever the default says. */
  lemma MergeOverridePrevails(o: InputSources, default: InputSources, d: SwitchDirection)
    requires o.Source(d).Some?
    ensures o.Merge(default).Source(d) == o.Source(d)
  {
  }

  /** A direction the overriding sources leave unset is taken from the default. */
  lemma MergeFallsBack(o: InputSources, default: InputSources, d: SwitchDirection)
    requires o.Source(d).None?
    ensures o.Merge(default).Source(d) == default.Source(d)
  {
  }

  /** Merging with nothing configured changes nothing, on either side; merging a pair with
      itself changes nothing either. */
  lemma MergeIdentities(s: InputSources)
    ensures NoSources.Merge(s) == s
    ensures s.Merge(NoSources) == s
    ensures s.Merge(s) == s
  {
  }

  /** Merge chains associate: overriding twice is overriding once with the merged override. */
  lemma MergeAssociative(a: InputSources, b: InputSources, c: InputSources)
    ensures a.Merge(b).Merge(c) == a.Merge(b.Merge(c))
  {
    OrAssociative(a.onUsbConnect, b.onUsbConnect, c.onUsbConnect);
    OrAssociative(a.onUsbDisconnect, b.onUsbDisconnect, c.onUsbDisconnect);
  }

  /** Merge is not commutative: the overriding side wins wherever both sides are set. */
  lemma MergeNotCommutative()
    ensures exists a: InputSources, b: InputSources :: a.Merge(b) != b.Merge(a)
  {
    var a := InputSources(Some(InputSource(1)), None);
    var b := InputSources(Some(InputSource(2)), None);
    assert a.Merge(b).Source(Connect) == Some(InputSource(1));
    assert b.Merge(a).Source(Connect) == Some(InputSource(2));
  }

  /** One per-monitor section: an identifier fragment and the sources that override the
      global ones for the monitors it matches. */
  datatype PerMonitorConfiguration = PerMonitorConfiguration(monitorId: string, inputSources: InputSources) {

    /** Whether this section applies to the monitor called `queried`: its fragment,
        lower-cased, occurs somewhere in the lower-cased queried identifier. */
    function Matches(queried: string): (r: bool)
      ensures r <==> exists i :: 0 <= i <= |queried| - |monitorId| && OccursAt(Lower(monitorId), Lower(queried), i)
    {
      assert |Lower(queried)| - |Lower(monitorId)| == |queried| - |monitorId|;
      Contains(Lower(queried), Lower(monitorId))
    }
  }

  /** Matching ignores the case of the queried identifier and of the configured fragment. */
  lemma MatchesIgnoresCase(p: PerMonitorConfiguration, queried: string)
    ensures p.Matches(Lower(queried)) == p.Matches(queried)
    ensures p.Matches(Upper(queried)) == p.Matches(queried)
    ensures PerMonitorConfiguration(Lower(p.monitorId), p.inputSources).Matches(queried) == p.Matches(queried)
    ensures PerMonitorConfiguration(Upper(p.monitorId), p.inputSources).Matches(queried) == p.Matches(queried)
  {
    LowerIdempotent(queried);
    LowerOfUpper(queried);
    LowerIdempotent(p.monitorId);
    LowerOfUpper(p.monitorId);
  }

  /** Any change of case, letter by letter, of the queried identifier or of the fragment
      leaves the verdict unchanged: only their lower-cased forms are compared. */
  lemma MatchesUpToCase(p: PerMonitorConfiguration, fragment: string, q1: string, q2: string)
    ensures Lower(q1) == Lower(q2) ==> p.Matches(q1) == p.Matches(q2)
    ensures Lower(fragment) == Lower(p.monitorId) ==>
      PerMonitorConfiguration(fragment, p.inputSources).Matches(q1) == p.Matches(q1)
  {
  }

  /** A fragment occurring verbatim inside the queried identifier matches it: partial
      identifiers are enough. */
  lemma MatchesEmbeddedFragment(p: PerMonitorConfiguration, queried: string, i: nat)
    requires OccursAt(p.monitorId, queried, i)
    ensures p.Matches(queried)
  {
    LowerSlice(queried, i, i + |p.monitorId|);
    assert OccursAt(Lower(p.monitorId), Lower(queried), i);
  }

  /** An empty fragment matches every monitor. */
  lemma EmptyFragmentMatchesAll(p: PerMonitorConfiguration, queried: string)
    requires p.monitorId == []
    ensures p.Matches(queried)
  {
    MatchesEmbeddedFragment(p, queried, 0);
  }

  /** A fragment longer than the queried identifier never matches it. */
  lemma LongerFragmentNeverMatches(p: PerMonitorConfiguration, queried: string)
    requires |p.monitorId| > |queried|
    ensures !p.Matches(queried)
  {
  }

  /** A fragment holding a character that, ignoring case, appears nowhere in the queried
      identifier never matches it. */
  lemma MissingCharacterNeverMatches(p: PerMonitorConfiguration, queried: string, k: int)
    requires 0 <= k < |p.monitorId|
    requires forall j :: 0 <= j < |queried| ==> LowerChar(queried[j]) != LowerChar(p.monitorId[k])
    ensures !p.Matches(queried)
  {
  }

  /** A slot holds a section and that section matches the queried identifier; empty
      slots never match. */
  predicate SlotMatches(slot: Option<PerMonitorConfiguration>, queried: string) {
    slot.Some? && slot.value.Matches(queried)
  }

  /** Slot `i` is the first slot that matches. */
  ghost predicate IsFirstMatch(slots: seq<Option<PerMonitorConfiguration>>, queried: string, i: int) {
    && 0 <= i < |slots|
    && SlotMatches(slots[i], queried)
    && forall j :: 0 <= j < i ==> !SlotMatches(slots[j], queried)
  }

  /** No slot matches. */
  ghost predicate NoSlotMatches(slots: seq<Option<PerMonitorConfiguration>>, queried: string) {
    forall j :: 0 <= j < |slots| ==> !SlotMatches(slots[j], queried)
  }

  /** The section of the first slot that matches, scanning in slot order. */
  function FindMatch(slots: seq<Option<PerMonitorConfiguration>>, queried: string): (r: Option<PerMonitorConfiguration>)
    ensures r.None? <==> NoSlotMatches(slots, queried)
    ensures forall i :: IsFirstMatch(slots, queried, i) ==> r == slots[i]
  {
    if slots == [] then None
    else if SlotMatches(slots[0], queried) then slots[0]
    else
      var r := FindMatch(slots[1..], queried);
      assert forall i :: 1 <= i < |slots| ==>
        (IsFirstMatch(slots, queried, i) <==> IsFirstMatch(slots[1..], queried, i - 1));
      r
  }

  /** A slot that is empty can be dropped from the scan without changing its outcome. */
  lemma {:induction false} FindMatchSkipsEmptySlot(slots: seq<Option<PerMonitorConfiguration>>, queried: string, k: int)
    requires 0 <= k < |slots| && slots[k].None?
    ensures FindMatch(slots, queried) == FindMatch(slots[..k] + slots[k + 1..], queried)
    decreases k
  {
    if k == 0 {
      assert slots[..k] + slots[k + 1..] == slots[1..];
    } else {
      var rest := slots[..k] + slots[k + 1..];
      assert rest[0] == slots[0];
      assert rest[1..] == slots[1..][..k - 1] + slots[1..][k..];
      if !SlotMatches(slots[0], queried) {
        FindMatchSkipsEmptySlot(slots[1..], queried, k - 1);
      }
    }
  }

  /** The whole configuration: the USB device to watch, the global input sources, and six
      optional per-monitor sections. Configurations read from settings are built by
      `FromRawFields` and satisfy `Valid`. */
  datatype Configuration = Configuration(
    usbDevice: string,
    inputSources: InputSources,
    monitor1: Option<PerMonitorConfiguration>,
    monitor2: Option<PerMonitorConfiguration>,
    monitor3: Option<PerMonitorConfiguration>,
    monitor4: Option<PerMonitorConfiguration>,
    monitor5: Option<PerMonitorConfiguration>,
    monitor6: Option<PerMonitorConfiguration>)
  {
    /** The stored USB device identifier is lower-cased, as reading it guarantees. */
    predicate Valid() {
      IsLowerCase(usbDevice)
    }

    /** The per-monitor slots in the order they are consulted. */
    function Slots(): seq<Option<PerMonitorConfiguration>> {
      [monitor1, monitor2, monitor3, monitor4, monitor5, monitor6]
    }

    /** The effective input sources for the monitor called `queried`: the first matching
        section's sources with the global sources filling its gaps, or the global sources
        alone when no section matches. */
    function ConfigurationForMonitor(queried: string): (r: InputSources)
      ensures NoSlotMatches(Slots(), queried) ==> r == inputSources
      ensures forall i :: IsFirstMatch(Slots(), queried, i) ==> r == Slots()[i].value.inputSources.Merge(inputSources)
    {
      match FindMatch(Slots(), queried)
      case None => inputSources
      case Some(p) => p.inputSources.Merge(inputSources)
    }

    /** The input source to switch the monitor called `queried` to on `direction`. */
    function Resolve(queried: string, direction: SwitchDirection): (r: Option<InputSource>)
      ensures NoSlotMatches(Slots(), queried) ==> r == inputSources.Source(direction)
      ensures forall i :: IsFirstMatch(Slots(), queried, i) ==>
        r == Slots()[i].value.inputSources.Source(direction).Or(inputSources.Source(direction))
    {
      ConfigurationForMonitor(queried).Source(direction)
    }
  }

  /** The two cases of the resolution contract cover every identifier: either no slot
      matches, or some slot is the first to match. */
  lemma {:induction false} FirstMatchOrNone(slots: seq<Option<PerMonitorConfiguration>>, queried: string)
    ensures NoSlotMatches(slots, queried) || exists i :: IsFirstMatch(slots, queried, i)
  {
    if slots == [] {
    } else if SlotMatches(slots[0], queried) {
      assert IsFirstMatch(slots, queried, 0);
    } else {
      FirstMatchOrNone(slots[1..], queried);
      if !NoSlotMatches(slots[1..], queried) {
        var i :| IsFirstMatch(slots[1..], queried, i);
        assert IsFirstMatch(slots, queried, i + 1);
      }
    }
  }

  /** A later matching slot never contributes, not even a direction the first matching
      slot leaves unset: that direction comes from the global sources. */
  lemma FirstMatchWins(c: Configuration, queried: string, i: int, j: int, d: SwitchDirection)
    requires IsFirstMatch(c.Slots(), queried, i)
    requires i < j < 6 && SlotMatches(c.Slots()[j], queried)
    requires c.Slots()[i].value.inputSources.Source(d).None?
    ensures c.Resolve(queried, d) == c.inputSources.Source(d)
  {
  }

  /** Slots after the first match, and the USB device, can be anything without changing the
      result: only the slots up to the first match and the global sources are consulted. */
  lemma {:induction false} ResultIndependentOfLaterSlots(c: Configuration, c': Configuration, queried: string, i: int)
    requires IsFirstMatch(c.Slots(), queried, i)
    requires c'.inputSources == c.inputSources
    requires c'.Slots()[..i + 1] == c.Slots()[..i + 1]
    ensures c'.ConfigurationForMonitor(queried) == c.ConfigurationForMonitor(queried)
  {
    assert forall j :: 0 <= j <= i ==> c'.Slots()[j] == c.Slots()[..i + 1][j];
    assert IsFirstMatch(c'.Slots(), queried, i);
  }

  /** The lower-casing applied to the configured USB device identifier when it is read. */
  function DeserializeUsbDevice(raw: string): (r: string)
    ensures |r| == |raw|
    ensures IsLowerCase(r)
    ensures forall i :: 0 <= i < |raw| && !IsUpper(raw[i]) ==> r[i] == raw[i]
    ensures forall i :: 0 <= i < |raw| && IsUpper(raw[i]) ==> IsLower(r[i]) && UpperChar(r[i]) == raw[i]
  {
    LowerCharacterisation(raw);
    forall i | 0 <= i < |raw| && IsUpper(raw[i])
      ensures UpperChar(Lower(raw)[i]) == raw[i]
    {
      LetterCaseRoundTrip(raw[i]);
    }
    Lower(raw)
  }

  /** The configuration read from its raw fields: the USB device identifier goes through
      `DeserializeUsbDevice`, the global sources and the six sections are stored as given,
      with no merging at this stage. */
  function FromRawFields(
    rawUsbDevice: string,
    inputSources: InputSources,
    monitor1: Option<PerMonitorConfiguration>,
    monitor2: Option<PerMonitorConfiguration>,
    monitor3: Option<PerMonitorConfiguration>,
    monitor4: Option<PerMonitorConfiguration>,
    monitor5: Option<PerMonitorConfiguration>,
    monitor6: Option<PerMonitorConfiguration>): (r: Configuration)
    ensures r.Valid()
    ensures r.usbDevice == DeserializeUsbDevice(rawUsbDevice)
    ensures r.inputSources == inputSources
    ensures r.Slots() == [monitor1, monitor2, monitor3, monitor4, monitor5, monitor6]
  {
    Configuration(DeserializeUsbDevice(rawUsbDevice), inputSources,
      monitor1, monitor2, monitor3, monitor4, monitor5, monitor6)
  }

  /** Every valid configuration is one that reading its own fields produces, so `Valid`
      describes exactly the configurations `FromRawFields` can yield. */
  lemma ValidIsReadable(c: Configuration)
    ensures c.Valid() <==> c == FromRawFields(c.usbDevice, c.inputSources,
      c.monitor1, c.monitor2, c.monitor3, c.monitor4, c.monitor5, c.monitor6)
  {
  }

  /** Normalising an already normalised identifier changes nothing. */
  lemma DeserializeUsbDeviceIdempotent(raw: string)
    ensures DeserializeUsbDevice(DeserializeUsbDevice(raw)) == DeserializeUsbDevice(raw)
  {
  }
}
