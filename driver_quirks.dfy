/**
 * Driver quirks of the gbm-kms platform
 * (src/platforms/gbm-kms/server/kms/quirks.cpp): the `driver-quirks` option
 * entries are parsed into three sets of names, which then decide whether a
 * device is skipped and whether its modesetting support is probed.
 */
module DriverQuirks {
  import opened Optional

  // ---------------------------------------------------------------------
  // The parts of std::string that the parser relies on
  // ---------------------------------------------------------------------

  /** `size_t` arithmetic wraps modulo 2^64. */
  const SizeTModulus: int := 0x1_0000_0000_0000_0000
  /** `std::string::npos`, the largest `size_t`. */
  const NPos: int := SizeTModulus - 1

  /** A `std::string`: its length is always below `npos`. */
  type StdString = s: string | |s| < NPos

  predicate StartsWith(s: string, prefix: string) {
    |prefix| <= |s| && s[..|prefix|] == prefix
  }

  /**
   * `s.find(c, pos)`: the first index from `pos` on that holds `c`, or
   * `npos` when there is none.
   */
  function Find(s: StdString, c: char, pos: nat): (r: int)
    ensures r == NPos || (pos <= r < |s| && s[r] == c)
    ensures forall i :: pos <= i < |s| && (r == NPos || i < r) ==> s[i] != c
    decreases |s| - pos
  {
    if pos >= |s| then NPos
    else if s[pos] == c then pos
    else Find(s, c, pos + 1)
  }

  /**
   * `s.substr(pos, count)`: at most `count` characters from `pos` on. The
   * source throws when `pos` is past the end; every call here stays within.
   */
  function Substr(s: string, pos: int, count: int): (r: string)
    requires 0 <= pos <= |s| && count >= 0
    ensures |r| <= count && pos + |r| <= |s| && r == s[pos..pos + |r|]
    ensures |r| < count ==> pos + |r| == |s|
  {
    if count < |s| - pos then s[pos..pos + count] else s[pos..]
  }

  // ---------------------------------------------------------------------
  // Parsing one entry
  // ---------------------------------------------------------------------

  const SkipPrefix: string := "skip:"
  const DisableKmsProbePrefix: string := "disable-kms-probe:"

  /** What one `driver-quirks` entry asks for. */
  datatype Quirk =
    | SkipDevnode(devnode: string)
    | SkipDriver(driver: string)
    | DisableKmsProbe(driver: string)
    | Unrecognised

  /**
   * The type of a `skip:` entry: `substr(5, pos - 5)` where `pos` is the
   * first colon after `skip:`. Without one, `npos - 5` is a count past the
   * end, so the type is the rest of the entry. Either way it holds no colon.
   */
  function SkipTypeOf(quirk: StdString): (quirkType: string)
    requires StartsWith(quirk, SkipPrefix)
    ensures Find(quirk, ':', 5) == NPos ==> quirkType == quirk[5..]
    ensures Find(quirk, ':', 5) != NPos ==> quirkType == quirk[5..Find(quirk, ':', 5)]
    ensures ':' !in quirkType
  {
    var typeDelimiterPos := Find(quirk, ':', 5);
    Substr(quirk, 5, (typeDelimiterPos - 5) % SizeTModulus)
  }

  /**
   * The value of a `skip:` entry: `substr(pos + 1)`. Without a colon,
   * `npos + 1` wraps to 0 and the value is the whole entry.
   */
  function SkipValueOf(quirk: StdString): (value: string)
    requires StartsWith(quirk, SkipPrefix)
    ensures Find(quirk, ':', 5) == NPos ==> value == quirk
    ensures Find(quirk, ':', 5) != NPos ==> value == quirk[Find(quirk, ':', 5) + 1..]
  {
    var typeDelimiterPos := Find(quirk, ':', 5);
    Substr(quirk, (typeDelimiterPos + 1) % SizeTModulus, NPos)
  }

  /**
   * The parse in the body of the `Impl` constructor's loop: a `skip:` entry
   * of type `devnode` or `driver` names its value, a `disable-kms-probe:`
   * entry names the rest of the entry, and anything else is ignored.
   */
  function ParseQuirk(quirk: StdString): (r: Quirk)
    ensures r.SkipDevnode? <==> StartsWith(quirk, SkipPrefix) && SkipTypeOf(quirk) == "devnode"
    ensures r.SkipDriver? <==> StartsWith(quirk, SkipPrefix) && SkipTypeOf(quirk) == "driver"
    ensures r.SkipDevnode? ==> r.devnode == SkipValueOf(quirk)
    ensures r.SkipDriver? ==> r.driver == SkipValueOf(quirk)
    ensures r.DisableKmsProbe? <==> !StartsWith(quirk, SkipPrefix) && StartsWith(quirk, DisableKmsProbePrefix)
    ensures r.DisableKmsProbe? ==> r.driver == quirk[|DisableKmsProbePrefix|..]
  {
    if StartsWith(quirk, SkipPrefix) then
      var quirkType := SkipTypeOf(quirk);
      if quirkType == "devnode" then SkipDevnode(SkipValueOf(quirk))
      else if quirkType == "driver" then SkipDriver(SkipValueOf(quirk))
      else Unrecognised
    else if StartsWith(quirk, DisableKmsProbePrefix) then
      DisableKmsProbe(Substr(quirk, |DisableKmsProbePrefix|, NPos))
    else
      Unrecognised
  }

  /** `skip:devnode:V` skips the device node V. */
  lemma ParseSkipDevnode(value: string)
    requires |"skip:devnode:" + value| < NPos
    ensures ParseQuirk("skip:devnode:" + value) == SkipDevnode(value)
  {
    var q: StdString := "skip:devnode:" + value;
    assert q[..5] == SkipPrefix;
    assert q[5..12] == "devnode" && q[12] == ':';
    assert Find(q, ':', 5) == 12;
    assert q[13..] == value;
  }

  /** `skip:driver:V` skips devices driven by V. */
  lemma ParseSkipDriver(value: string)
    requires |"skip:driver:" + value| < NPos
    ensures ParseQuirk("skip:driver:" + value) == SkipDriver(value)
  {
    var q: StdString := "skip:driver:" + value;
    assert q[..5] == SkipPrefix;
    assert q[5..11] == "driver" && q[11] == ':';
    assert Find(q, ':', 5) == 11;
    assert q[12..] == value;
  }

  /** `disable-kms-probe:V` turns off the modesetting probe for driver V. */
  lemma ParseDisableKmsProbe(value: string)
    requires |"disable-kms-probe:" + value| < NPos
    ensures ParseQuirk("disable-kms-probe:" + value) == DisableKmsProbe(value)
  {
    var q: StdString := "disable-kms-probe:" + value;
    assert q[..|DisableKmsProbePrefix|] == DisableKmsProbePrefix;
    assert q[..5] != SkipPrefix by {
      assert q[0] == 'd';
    }
    assert q[18..] == value;
  }

  /**
   * Without a second colon the whole entry becomes the value:
   * `skip:devnode` skips a device node named `skip:devnode`.
   */
  lemma ParseBareSkipDevnode()
    ensures ParseQuirk("skip:devnode") == SkipDevnode("skip:devnode")
  {
    var q: StdString := "skip:devnode";
    assert q[..5] == SkipPrefix;
    assert Find(q, ':', 5) == NPos;
    assert q[5..] == "devnode";
  }

  /** Likewise `skip:driver` skips devices whose driver is named `skip:driver`. */
  lemma ParseBareSkipDriver()
    ensures ParseQuirk("skip:driver") == SkipDriver("skip:driver")
  {
    var q: StdString := "skip:driver";
    assert q[..5] == SkipPrefix;
    assert Find(q, ':', 5) == NPos;
    assert q[5..] == "driver";
  }

  /** Exactly two forms of entry skip a device node. */
  lemma ParseSkipDevnodeExactly(quirk: StdString, value: string)
    ensures ParseQuirk(quirk) == SkipDevnode(value) <==>
              quirk == "skip:devnode:" + value || (quirk == "skip:devnode" && value == quirk)
  {
    if ParseQuirk(quirk) == SkipDevnode(value) {
      assert StartsWith(quirk, SkipPrefix) && SkipTypeOf(quirk) == "devnode" && value == SkipValueOf(quirk);
      if Find(quirk, ':', 5) == NPos {
        assert quirk == quirk[..5] + quirk[5..];
      } else {
        assert quirk == quirk[..5] + quirk[5..12] + [quirk[12]] + quirk[13..];
      }
    }
    if quirk == "skip:devnode:" + value {
      ParseSkipDevnode(value);
    }
    if quirk == "skip:devnode" && value == quirk {
      ParseBareSkipDevnode();
    }
  }

  /** Exactly two forms of entry skip a driver. */
  lemma ParseSkipDriverExactly(quirk: StdString, value: string)
    ensures ParseQuirk(quirk) == SkipDriver(value) <==>
              quirk == "skip:driver:" + value || (quirk == "skip:driver" && value == quirk)
  {
    if ParseQuirk(quirk) == SkipDriver(value) {
      assert StartsWith(quirk, SkipPrefix) && SkipTypeOf(quirk) == "driver" && value == SkipValueOf(quirk);
      if Find(quirk, ':', 5) == NPos {
        assert quirk == quirk[..5] + quirk[5..];
      } else {
        assert quirk == quirk[..5] + quirk[5..11] + [quirk[11]] + quirk[12..];
      }
    }
    if quirk == "skip:driver:" + value {
      ParseSkipDriver(value);
    }
    if quirk == "skip:driver" && value == quirk {
      ParseBareSkipDriver();
    }
  }

  /** Exactly one form of entry disables the modesetting probe. */
  lemma ParseDisableKmsProbeExactly(quirk: StdString, value: string)
    ensures ParseQuirk(quirk) == DisableKmsProbe(value) <==> quirk == "disable-kms-probe:" + value
  {
    if ParseQuirk(quirk) == DisableKmsProbe(value) {
      assert quirk == quirk[..18] + quirk[18..];
    }
    if quirk == "disable-kms-probe:" + value {
      ParseDisableKmsProbe(value);
    }
  }

  // ---------------------------------------------------------------------
  // The three sets
  // ---------------------------------------------------------------------

  /** The contents of `drivers_to_skip`, `devnodes_to_skip` and `skip_modesetting_support`. */
  datatype SkipSets = SkipSets(drivers: set<string>, devnodes: set<string>, modesetting: set<string>)

  /** The initial sets: gbm-kms does not work with nvidia or evdi, and probing virtio_gpu is skipped. */
  const Defaults: SkipSets := SkipSets({"nvidia", "evdi"}, {}, {"virtio_gpu"})

  /** One entry's effect on the sets. */
  function Apply(sets: SkipSets, quirk: Quirk): (r: SkipSets)
    ensures quirk.SkipDevnode? ==> r == sets.(devnodes := sets.devnodes + {quirk.devnode})
    ensures quirk.SkipDriver? ==> r == sets.(drivers := sets.drivers + {quirk.driver})
    ensures quirk.DisableKmsProbe? ==> r == sets.(modesetting := sets.modesetting + {quirk.driver})
    ensures quirk.Unrecognised? ==> r == sets
  {
    match quirk
    case SkipDevnode(devnode) => sets.(devnodes := sets.devnodes + {devnode})
    case SkipDriver(driver) => sets.(drivers := sets.drivers + {driver})
    case DisableKmsProbe(driver) => sets.(modesetting := sets.modesetting + {driver})
    case Unrecognised => sets
  }

  /**
   * The sets after the entries have been applied in order. No entry removes
   * a name, so the defaults survive every option value: nvidia and evdi
   * are always skipped, and the probe is always skipped for virtio_gpu.
   */
  function Configured(quirks: seq<StdString>): (r: SkipSets)
    ensures quirks == [] ==> r == Defaults
    ensures Defaults.drivers <= r.drivers
    ensures Defaults.devnodes <= r.devnodes
    ensures Defaults.modesetting <= r.modesetting
  {
    if quirks == [] then Defaults
    else Apply(Configured(quirks[..|quirks| - 1]), ParseQuirk(quirks[|quirks| - 1]))
  }

  /**
   * Each set is its default contents plus the names that some entry adds
   * to it, so the sets only grow and the entries combine.
   */
  lemma {:induction false} ConfiguredDrivers(quirks: seq<StdString>, name: string)
    ensures name in Configured(quirks).drivers <==>
              name in Defaults.drivers || exists q :: q in quirks && ParseQuirk(q) == SkipDriver(name)
  {
    if quirks != [] {
      var init, last := quirks[..|quirks| - 1], quirks[|quirks| - 1];
      assert quirks == init + [last];
      ConfiguredDrivers(init, name);
      var parsed := ParseQuirk(last);
      assert Configured(quirks) == Apply(Configured(init), parsed);
      if name in Configured(quirks).drivers {
        if name !in Configured(init).drivers {
          assert parsed == SkipDriver(name) && last in quirks;
        } else if name !in Defaults.drivers {
          var q :| q in init && ParseQuirk(q) == SkipDriver(name);
          assert q in quirks;
        }
      } else {
        forall q | q in quirks
          ensures ParseQuirk(q) != SkipDriver(name)
        {
          if q != last {
            assert q in init;
          }
        }
      }
    }
  }

  lemma {:induction false} ConfiguredDevnodes(quirks: seq<StdString>, name: string)
    ensures name in Configured(quirks).devnodes <==>
              name in Defaults.devnodes || exists q :: q in quirks && ParseQuirk(q) == SkipDevnode(name)
  {
    if quirks != [] {
      var init, last := quirks[..|quirks| - 1], quirks[|quirks| - 1];
      assert quirks == init + [last];
      ConfiguredDevnodes(init, name);
      var parsed := ParseQuirk(last);
      assert Configured(quirks) == Apply(Configured(init), parsed);
      if name in Configured(quirks).devnodes {
        if name !in Configured(init).devnodes {
          assert parsed == SkipDevnode(name) && last in quirks;
        } else if name !in Defaults.devnodes {
          var q :| q in init && ParseQuirk(q) == SkipDevnode(name);
          assert q in quirks;
        }
      } else {
        forall q | q in quirks
          ensures ParseQuirk(q) != SkipDevnode(name)
        {
          if q != last {
            assert q in init;
          }
        }
      }
    }
  }

  lemma {:induction false} ConfiguredModesetting(quirks: seq<StdString>, name: string)
    ensures name in Configured(quirks).modesetting <==>
              name in Defaults.modesetting || exists q :: q in quirks && ParseQuirk(q) == DisableKmsProbe(name)
  {
    if quirks != [] {
      var init, last := quirks[..|quirks| - 1], quirks[|quirks| - 1];
      assert quirks == init + [last];
      ConfiguredModesetting(init, name);
      var parsed := ParseQuirk(last);
      assert Configured(quirks) == Apply(Configured(init), parsed);
      if name in Configured(quirks).modesetting {
        if name !in Configured(init).modesetting {
          assert parsed == DisableKmsProbe(name) && last in quirks;
        } else if name !in Defaults.modesetting {
          var q :| q in init && ParseQuirk(q) == DisableKmsProbe(name);
          assert q in quirks;
        }
      } else {
        forall q | q in quirks
          ensures ParseQuirk(q) != DisableKmsProbe(name)
        {
          if q != last {
            assert q in init;
          }
        }
      }
    }
  }

  /** Only which entries are given matters, not their order or repetition. */
  lemma ConfiguredIgnoresOrder(quirks: seq<StdString>, others: seq<StdString>)
    requires forall q :: q in quirks <==> q in others
    ensures Configured(quirks) == Configured(others)
  {
    var a, b := Configured(quirks), Configured(others);
    forall name | true
      ensures (name in a.drivers <==> name in b.drivers)
      ensures (name in a.devnodes <==> name in b.devnodes)
      ensures (name in a.modesetting <==> name in b.modesetting)
    {
      ConfiguredDrivers(quirks, name);
      ConfiguredDrivers(others, name);
      ConfiguredDevnodes(quirks, name);
      ConfiguredDevnodes(others, name);
      ConfiguredModesetting(quirks, name);
      ConfiguredModesetting(others, name);
    }
  }

  /** Adding an entry of one kind changes only the set of that kind. */
  lemma ConfiguredAppend(quirks: seq<StdString>, quirk: StdString)
    ensures ParseQuirk(quirk).SkipDevnode? ==>
              Configured(quirks + [quirk]) ==
              Configured(quirks).(devnodes := Configured(quirks).devnodes + {ParseQuirk(quirk).devnode})
    ensures ParseQuirk(quirk).SkipDriver? ==>
              Configured(quirks + [quirk]) ==
              Configured(quirks).(drivers := Configured(quirks).drivers + {ParseQuirk(quirk).driver})
    ensures ParseQuirk(quirk).DisableKmsProbe? ==>
              Configured(quirks + [quirk]) ==
              Configured(quirks).(modesetting := Configured(quirks).modesetting + {ParseQuirk(quirk).driver})
    ensures ParseQuirk(quirk).Unrecognised? ==> Configured(quirks + [quirk]) == Configured(quirks)
  {
    assert (quirks + [quirk])[..|quirks|] == quirks;
  }

  // ---------------------------------------------------------------------
  // Devices
  // ---------------------------------------------------------------------

  /** `value_or`: a possibly null C string, or a fallback. */
  function ValueOr(maybeNullString: Option<string>, valueIfNull: string): (r: string)
    ensures maybeNullString.Some? ==> r == maybeNullString.value
    ensures maybeNullString.None? ==> r == valueIfNull
  {
    match maybeNullString
    case Some(s) => s
    case None => valueIfNull
  }

  /** A udev device as the quirks see it: its node and its parent's driver. */
  datatype ParentDevice = ParentDevice(driver: Option<string>)
  datatype Device = Device(devnode: Option<string>, parent: Option<ParentDevice>)

  /** The devnode a device is matched by: "" when it has none. */
  function DevnodeName(device: Device): (r: string)
    ensures device.devnode.Some? ==> r == device.devnode.value
    ensures device.devnode.None? ==> r == ""
  {
    ValueOr(device.devnode, "")
  }

  /** The driver a device is matched by: `<UNKNOWN>` without a parent, "" for a parent without a driver. */
  function DriverName(device: Device): (r: string)
    ensures device.parent.None? ==> r == "<UNKNOWN>"
    ensures device.parent.Some? && device.parent.value.driver.None? ==> r == ""
    ensures device.parent.Some? && device.parent.value.driver.Some? ==> r == device.parent.value.driver.value
  {
    match device.parent
    case Some(parentDevice) => ValueOr(parentDevice.driver, "")
    case None => "<UNKNOWN>"
  }

  /** Whether the two probe-disabling environment variables are set. */
  datatype Environment = Environment(mesaKmsDisableModesetProbe: bool, gbmKmsDisableModesetProbe: bool)

  // ---------------------------------------------------------------------
  // The quirks object
  // ---------------------------------------------------------------------

  class Quirks {
    var driversToSkip: set<string>
    var devnodesToSkip: set<string>
    var skipModesettingSupport: set<string>
    /** The entries of the option, empty when it is not set. */
    ghost const quirks: seq<StdString>

    ghost function Sets(): SkipSets
      reads this
    {
      SkipSets(driversToSkip, devnodesToSkip, skipModesettingSupport)
    }

    ghost predicate Valid()
      reads this
    {
      Sets() == Configured(quirks)
    }

    /** The `Impl` constructor: the defaults, then every entry of the option in turn. */
    constructor (options: Option<seq<StdString>>)
      ensures Valid()
      ensures quirks == if options.Some? then options.value else []
    {
      driversToSkip := {"nvidia", "evdi"};
      devnodesToSkip := {};
      skipModesettingSupport := {"virtio_gpu"};
      quirks := if options.Some? then options.value else [];
      new;
      if options.None? {
        return;
      }
      var entries := options.value;
      var i := 0;
      while i < |entries|
        invariant 0 <= i <= |entries|
        invariant Sets() == Configured(entries[..i])
      {
        var quirk := entries[i];
        assert entries[..i + 1][..i] == entries[..i];
        match ParseQuirk(quirk) {
          case SkipDevnode(devnode) =>
            devnodesToSkip := devnodesToSkip + {devnode};
          case SkipDriver(driver) =>
            driversToSkip := driversToSkip + {driver};
          case DisableKmsProbe(driver) =>
            skipModesettingSupport := skipModesettingSupport + {driver};
          case Unrecognised =>
        }
        i := i + 1;
      }
      assert entries[..i] == entries;
    }

    /** `should_skip`: the device's driver or devnode is listed. */
    function ShouldSkip(device: Device): (r: bool)
      reads this
      requires Valid()
      ensures r <==> DriverName(device) in Configured(quirks).drivers ||
                     DevnodeName(device) in Configured(quirks).devnodes
    {
      DriverName(device) in driversToSkip || DevnodeName(device) in devnodesToSkip
    }

    /** `Impl::require_modesetting_support`: the device's driver is not listed. */
    function DriverNeedsModesettingProbe(device: Device): (r: bool)
      reads this
      requires Valid()
      ensures r <==> DriverName(device) !in Configured(quirks).modesetting
    {
      DriverName(device) !in skipModesettingSupport
    }

    /**
     * `Quirks::require_modesetting_support`: either environment variable
     * turns the probe off; otherwise the driver list decides.
     */
    function RequireModesettingSupport(env: Environment, device: Device): (r: bool)
      reads this
      requires Valid()
      ensures r <==> !env.mesaKmsDisableModesetProbe && !env.gbmKmsDisableModesetProbe &&
                     DriverName(device) !in Configured(quirks).modesetting
    {
      if env.mesaKmsDisableModesetProbe then false
      else if env.gbmKmsDisableModesetProbe then false
      else DriverNeedsModesettingProbe(device)
    }
  }
}
