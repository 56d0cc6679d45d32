/** `Borg.version`: reading `(major, minor, point)` out of the text that
    `borg --version` prints, such as "borg 1.2.3\n". Running the command is
    not part of this module; it starts from the captured stdout. */
module BorgVersion {
  import opened Wrappers
  import opened Text

  datatype Version = Version(major: nat, minor: nat, point: nat)

  /** The ways the parse raises `ValueError`. */
  datatype VersionError =
    | FieldCount(fields: nat)          // stdout did not split on " " into exactly two fields
    | ComponentCount(components: nat)  // the version did not split on "." into exactly three parts
    | NotAnInteger(component: string)  // `int()` refused a part

  /** `int(major), int(minor), int(point)`, evaluated left to right, so the
      first part that is not a number is the one reported. */
  function FromComponents(p0: string, p1: string, p2: string): (r: Result<Version, VersionError>)
    ensures r.Success? <==> ParseNat(p0).Some? && ParseNat(p1).Some? && ParseNat(p2).Some?
    ensures r.Success? ==> Some(r.value.major) == ParseNat(p0) && Some(r.value.minor) == ParseNat(p1)
                           && Some(r.value.point) == ParseNat(p2)
    ensures r.Failure? ==> r.error == NotAnInteger(
      if ParseNat(p0).None? then p0 else if ParseNat(p1).None? then p1 else p2)
  {
    match (ParseNat(p0), ParseNat(p1), ParseNat(p2))
    case (Some(a), Some(b), Some(c)) => Success(Version(a, b, c))
    case (None, _, _) => Failure(NotAnInteger(p0))
    case (Some(_), None, _) => Failure(NotAnInteger(p1))
    case (Some(_), Some(_), None) => Failure(NotAnInteger(p2))
  }

  /** The body of `Borg.version` after the command has run: split on one
      space into `_, version`, right-strip, split on "." into three parts,
      convert each. */
  function ParseVersion(stdout: string): (r: Result<Version, VersionError>)
    ensures Count(stdout, ' ') != 1 ==> r == Failure(FieldCount(Count(stdout, ' ') + 1))
    ensures r.Success? ==> Count(stdout, ' ') == 1
  {
    var fields := Split(stdout, ' ');
    if |fields| != 2 then
      Failure(FieldCount(|fields|))
    else
      var version := RStrip(fields[1]);
      var parts := Split(version, '.');
      if |parts| != 3 then
        Failure(ComponentCount(|parts|))
      else
        FromComponents(parts[0], parts[1], parts[2])
  }

  /** Stdout with exactly one space: the first field is discarded unread and
      the second is what the rest of the parse sees. */
  lemma SplitOneSpace(w: string, v: string)
    requires ' ' !in w && ' ' !in v
    ensures Split(w + " " + v, ' ') == [w, v]
  {
    SplitAfterField(w, v, ' ');
    SplitNoSeparator(v, ' ');
  }

  /** A dotted string with no further structure splits into its three parts. */
  lemma SplitThree(p0: string, p1: string, p2: string)
    requires '.' !in p0 && '.' !in p1 && '.' !in p2
    ensures Split(p0 + "." + p1 + "." + p2, '.') == [p0, p1, p2]
  {
    assert p0 + "." + p1 + "." + p2 == p0 + ['.'] + (p1 + "." + p2);
    SplitAfterField(p0, p1 + "." + p2, '.');
    SplitAfterField(p1, p2, '.');
    SplitNoSeparator(p2, '.');
  }

  /** The general shape of an accepted stdout: one word, one space, three
      dot-separated parts, then any trailing whitespace other than a space.
      The outcome depends only on the three parts. */
  lemma {:induction false} ParseVersionShape(w: string, p0: string, p1: string, p2: string, ws: string)
    requires ' ' !in w
    requires ' ' !in p0 && ' ' !in p1 && ' ' !in p2 && ' ' !in ws
    requires '.' !in p0 && '.' !in p1 && '.' !in p2
    requires |p2| == 0 || !IsSpace(p2[|p2| - 1])
    requires forall i :: 0 <= i < |ws| ==> IsSpace(ws[i])
    ensures ParseVersion(w + " " + p0 + "." + p1 + "." + p2 + ws) == FromComponents(p0, p1, p2)
  {
    var core := p0 + "." + p1 + "." + p2;
    var rest := core + ws;
    assert ' ' !in core;
    assert w + " " + p0 + "." + p1 + "." + p2 + ws == w + " " + rest;
    SplitOneSpace(w, rest);
    RStripSpaces(core, ws);
    assert core[|core| - 1] == (if |p2| == 0 then '.' else p2[|p2| - 1]);
    assert RStrip(core) == core;
    SplitThree(p0, p1, p2);
  }

  /** Round trip: the version line of any word and three naturals parses
      back to those naturals; the word itself is never checked. */
  lemma VersionRoundTrip(w: string, a: nat, b: nat, c: nat)
    requires ' ' !in w
    ensures ParseVersion(w + " " + NatToString(a) + "." + NatToString(b) + "." + NatToString(c) + "\n")
            == Success(Version(a, b, c))
  {
    NatToStringHasNo(a, ' '); NatToStringHasNo(b, ' '); NatToStringHasNo(c, ' ');
    NatToStringHasNo(a, '.'); NatToStringHasNo(b, '.'); NatToStringHasNo(c, '.');
    var p2 := NatToString(c);
    assert !IsSpace(p2[|p2| - 1]);
    ParseVersionShape(w, NatToString(a), NatToString(b), p2, "\n");
    ParseNatToString(a); ParseNatToString(b); ParseNatToString(c);
  }

  /** The first field is ignored: any two space-free words give the same outcome. */
  lemma FirstFieldIgnored(w1: string, w2: string, rest: string)
    requires ' ' !in w1 && ' ' !in w2
    ensures ParseVersion(w1 + " " + rest) == ParseVersion(w2 + " " + rest)
  {
    SplitAfterField(w1, rest, ' ');
    SplitAfterField(w2, rest, ' ');
  }

  /** Trailing whitespace (the newline included) never changes the outcome,
      as long as it adds no space, which would add a field. */
  lemma TrailingWhitespaceIgnored(s: string, ws: string)
    requires ' ' !in ws
    requires forall i :: 0 <= i < |ws| ==> IsSpace(ws[i])
    ensures ParseVersion(s + ws) == ParseVersion(s)
  {
    SplitExtendLast(s, ws, ' ');
    var r, r' := Split(s, ' '), Split(s + ws, ' ');
    if |r| == 2 {
      RStripSpaces(r[1], ws);
    }
  }

  /** A version field with other than two dots fails with the number of parts it has. */
  lemma {:induction false} WrongComponentCount(w: string, v: string, ws: string)
    requires ' ' !in w && ' ' !in v && ' ' !in ws
    requires |v| == 0 || !IsSpace(v[|v| - 1])
    requires forall i :: 0 <= i < |ws| ==> IsSpace(ws[i])
    requires Count(v, '.') != 2
    ensures ParseVersion(w + " " + v + ws) == Failure(ComponentCount(Count(v, '.') + 1))
  {
    assert w + " " + v + ws == w + " " + (v + ws);
    SplitOneSpace(w, v + ws);
    RStripSpaces(v, ws);
    assert RStrip(v) == v;
  }
}
