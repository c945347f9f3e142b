// bump-version.py: the three module-level version numbers, the bump
// functions that change them, the order in which the command line's bumps
// and explicit settings apply, and the version string.

module BumpVersion {
  import opened Text

  datatype Version = Version(major: int, minor: int, micro: int)

  /** The command line: three bump flags and three settings, -1 meaning unset. */
  datatype Args = Args(major: bool, minor: bool, micro: bool, setMajor: int, setMinor: int, setMicro: int)

  /** The bumps of the main block, applied micro, then minor, then major. */
  function Bumped(v: Version, a: Args): Version
  {
    var v1 := if a.micro then v.(micro := v.micro + 1) else v;
    var v2 := if a.minor then v1.(micro := 0, minor := v1.minor + 1) else v1;
    if a.major then v2.(micro := 0, minor := 0, major := v2.major + 1) else v2
  }

  /** The explicit settings, applied after the bumps; a negative setting leaves the field. */
  function Settled(v: Version, a: Args): Version
  {
    Version(if a.setMajor >= 0 then a.setMajor else v.major,
            if a.setMinor >= 0 then a.setMinor else v.minor,
            if a.setMicro >= 0 then a.setMicro else v.micro)
  }

  /** Whether the main block rewrites the version files. */
  predicate Rewrites(a: Args)
  {
    a.major || a.minor || a.micro || a.setMajor >= 0 || a.setMinor >= 0 || a.setMicro >= 0
  }

  /** With several bump flags the highest bump decides, including its resets. */
  lemma BumpOrder(v: Version, a: Args)
    ensures a.major ==> Bumped(v, a) == Version(v.major + 1, 0, 0)
    ensures !a.major && a.minor ==> Bumped(v, a) == Version(v.major, v.minor + 1, 0)
    ensures !a.major && !a.minor && a.micro ==> Bumped(v, a) == Version(v.major, v.minor, v.micro + 1)
    ensures !a.major && !a.minor && !a.micro ==> Bumped(v, a) == v
  {
  }

  /** Every setting at or above zero wins over the bumps; without any, the bumps stand. */
  lemma SettingsOverride(v: Version, a: Args)
    ensures a.setMajor >= 0 ==> Settled(Bumped(v, a), a).major == a.setMajor
    ensures a.setMinor >= 0 ==> Settled(Bumped(v, a), a).minor == a.setMinor
    ensures a.setMicro >= 0 ==> Settled(Bumped(v, a), a).micro == a.setMicro
    ensures a.setMajor < 0 && a.setMinor < 0 && a.setMicro < 0 ==> Settled(Bumped(v, a), a) == Bumped(v, a)
    ensures !Rewrites(a) ==> Settled(Bumped(v, a), a) == v
  {
  }

  /** getVersion(): "iSpector-" followed by major.minor.micro. */
  function VersionString(v: Version): string
  {
    "iSpector-" + IntToString(v.major) + "." + IntToString(v.minor) + "." + IntToString(v.micro)
  }

  /** For natural numbers the string splits back into the three numbers, so it tells versions apart. */
  lemma {:induction false} VersionStringFields(v: Version)
    requires v.major >= 0 && v.minor >= 0 && v.micro >= 0
    ensures |VersionString(v)| > 9 && VersionString(v)[..9] == "iSpector-"
    ensures var parts := Split(VersionString(v)[9..], '.');
      && |parts| == 3
      && (forall i :: 0 <= i < 3 ==> forall j :: 0 <= j < |parts[i]| ==> IsDigit(parts[i][j]))
      && ParseDigits(parts[0]) == v.major && ParseDigits(parts[1]) == v.minor && ParseDigits(parts[2]) == v.micro
  {
    var a, b, c := NatToString(v.major), NatToString(v.minor), NatToString(v.micro);
    var parts := [a, b, c];
    assert VersionString(v) == "iSpector-" + (a + "." + b + "." + c);
    assert VersionString(v)[9..] == a + "." + b + "." + c;
    assert parts[..2] == [a, b] && [a, b][..1] == [a];
    assert Join(".", [a, b]) == a + "." + b;
    assert Join(".", parts) == a + "." + b + "." + c;
    assert forall i :: 0 <= i < 3 ==> '.' !in parts[i];
    SplitJoin(parts, '.');
    ParseNatToString(v.major);
    ParseNatToString(v.minor);
    ParseNatToString(v.micro);
  }

  lemma VersionStringInjective(v: Version, w: Version)
    requires v.major >= 0 && v.minor >= 0 && v.micro >= 0
    requires w.major >= 0 && w.minor >= 0 && w.micro >= 0
    requires VersionString(v) == VersionString(w)
    ensures v == w
  {
    VersionStringFields(v);
    VersionStringFields(w);
  }

  /** The module globals current_major, current_minor and current_micro. */
  class VersionInfo {
    var major: int
    var minor: int
    var micro: int

    /** The values before the version file is read. */
    constructor ()
      ensures major == -1 && minor == -1 && micro == -1
    {
      major, minor, micro := -1, -1, -1;
    }

    function Current(): Version
      reads this
    {
      Version(major, minor, micro)
    }

    /** getVersion() */
    function GetVersion(): (s: string)
      reads this
      ensures s == VersionString(Current())
    {
      "iSpector-" + IntToString(major) + "." + IntToString(minor) + "." + IntToString(micro)
    }

    /** bumpMicroVersion(): micro + 1, the rest unchanged. */
    method BumpMicroVersion()
      modifies this
      ensures Current() == old(Current()).(micro := old(micro) + 1)
    {
      micro := micro + 1;
    }

    /** bumpMinorVersion(): minor + 1 and micro 0. */
    method BumpMinorVersion()
      modifies this
      ensures Current() == old(Current()).(minor := old(minor) + 1, micro := 0)
    {
      micro := 0;
      minor := minor + 1;
    }

    /** bumpMajorVersion(): major + 1, minor and micro 0. */
    method BumpMajorVersion()
      modifies this
      ensures Current() == Version(old(major) + 1, 0, 0)
    {
      micro := 0;
      minor := 0;
      major := major + 1;
    }

    /**
     * The main block after the version file is read: bumps in the order
     * micro, minor, major, then the settings; the files are rewritten only
     * when something was requested.
     */
    method Apply(ns: Args) returns (rewrite: bool)
      modifies this
      ensures Current() == Settled(Bumped(old(Current()), ns), ns)
      ensures rewrite == Rewrites(ns)
    {
      var bump := ns.major || ns.minor || ns.micro;
      var setting := ns.setMajor >= 0 || ns.setMinor >= 0 || ns.setMicro >= 0;
      if ns.micro {
        BumpMicroVersion();
      }
      if ns.minor {
        BumpMinorVersion();
      }
      if ns.major {
        BumpMajorVersion();
      }
      if ns.setMajor >= 0 {
        major := ns.setMajor;
      }
      if ns.setMinor >= 0 {
        minor := ns.setMinor;
      }
      if ns.setMicro >= 0 {
        micro := ns.setMicro;
      }
      rewrite := bump || setting;
    }
  }
}
