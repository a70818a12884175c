/** The scenarios of the configuration's unit tests, restated as lemmas about the model. */
module ConfigurationExamples {
  import opened Options
  import opened Ascii
  import opened Configuration

  /** Global sources 0x10 / 0x20; section 1 matches "123" and overrides only the connect
      source with 0x11; section 2 matches "45" and overrides both with 0x12 / 0x13. */
  function PerMonitorTestConfiguration(): Configuration {
    FromRawFields(
      "dead:BEEF",
      InputSources(Some(InputSource(0x10)), Some(InputSource(0x20))),
      Some(FirstSection()), Some(SecondSection()), None, None, None, None)
  }

  function FirstSection(): PerMonitorConfiguration {
    PerMonitorConfiguration("123", InputSources(Some(InputSource(0x11)), None))
  }

  function SecondSection(): PerMonitorConfiguration {
    PerMonitorConfiguration("45", InputSources(Some(InputSource(0x12)), Some(InputSource(0x13))))
  }

  /** The configured device identifier is stored lower-cased. */
  lemma UsbDeviceIsLowerCased()
    ensures PerMonitorTestConfiguration().usbDevice == "dead:beef"
  {
    var r := DeserializeUsbDevice("dead:BEEF");
    assert r[5] == 'b' && r[6] == 'e' && r[7] == 'e' && r[8] == 'f';
  }

  /** Neither configured fragment occurs in "333": it has no '1' and no '4'. */
  lemma NoSectionMatches333()
    ensures !FirstSection().Matches("333") && !SecondSection().Matches("333")
  {
    MissingCharacterNeverMatches(FirstSection(), "333", 0);
    MissingCharacterNeverMatches(SecondSection(), "333", 0);
  }

  /** "123" occurs in "1234" at its start. */
  lemma SectionsFor1234()
    ensures FirstSection().Matches("1234")
  {
    MatchesEmbeddedFragment(FirstSection(), "1234", 0);
  }

  /** "2345" has no '1', so the first section does not match; "45" occurs at its end. */
  lemma SectionsFor2345()
    ensures !FirstSection().Matches("2345") && SecondSection().Matches("2345")
  {
    MissingCharacterNeverMatches(FirstSection(), "2345", 0);
    MatchesEmbeddedFragment(SecondSection(), "2345", 2);
  }

  /** How a configuration whose only sections are `first` and `second`, in slots 1 and 2,
      resolves any identifier, by which of the two sections match. */
  lemma TwoSectionResolution(c: Configuration, first: PerMonitorConfiguration, second: PerMonitorConfiguration, q: string)
    requires c.Slots() == [Some(first), Some(second), None, None, None, None]
    ensures !first.Matches(q) && !second.Matches(q) ==> c.ConfigurationForMonitor(q) == c.inputSources
    ensures first.Matches(q) ==> c.ConfigurationForMonitor(q) == first.inputSources.Merge(c.inputSources)
    ensures !first.Matches(q) && second.Matches(q) ==>
      c.ConfigurationForMonitor(q) == second.inputSources.Merge(c.inputSources)
  {
    if first.Matches(q) {
      assert IsFirstMatch(c.Slots(), q, 0);
    } else if second.Matches(q) {
      assert IsFirstMatch(c.Slots(), q, 1);
    } else {
      assert NoSlotMatches(c.Slots(), q);
    }
  }

  /** "333" matches no section, so both directions come from the global sources. */
  lemma NoMatchUsesGlobalSources()
    ensures var r := PerMonitorTestConfiguration().Resolve("333", Connect); r.Some? && r.value.Value() == 0x10
    ensures var r := PerMonitorTestConfiguration().Resolve("333", Disconnect); r.Some? && r.value.Value() == 0x20
  {
    NoSectionMatches333();
    TwoSectionResolution(PerMonitorTestConfiguration(), FirstSection(), SecondSection(), "333");
  }

  /** "1234" matches section 1: its connect source, the global disconnect source. */
  lemma FirstSectionWithGlobalFallback()
    ensures var r := PerMonitorTestConfiguration().Resolve("1234", Connect); r.Some? && r.value.Value() == 0x11
    ensures var r := PerMonitorTestConfiguration().Resolve("1234", Disconnect); r.Some? && r.value.Value() == 0x20
  {
    SectionsFor1234();
    TwoSectionResolution(PerMonitorTestConfiguration(), FirstSection(), SecondSection(), "1234");
  }

  /** "2345" matches section 2 only: both of its sources. */
  lemma SecondSectionOverridesBoth()
    ensures var r := PerMonitorTestConfiguration().Resolve("2345", Connect); r.Some? && r.value.Value() == 0x12
    ensures var r := PerMonitorTestConfiguration().Resolve("2345", Disconnect); r.Some? && r.value.Value() == 0x13
  {
    SectionsFor2345();
    TwoSectionResolution(PerMonitorTestConfiguration(), FirstSection(), SecondSection(), "2345");
  }
}
