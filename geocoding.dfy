/** `GeocodingService.getPlaceName`: turning a reverse-geocoding answer into
    a short place name. The HTTP request and the JSON parsing are outside the
    model: the answer's body is given as text, and the parser as a function
    from that text to the fields the service reads (or `None` when parsing
    throws). What is modelled is the choice of the place name, the optional
    `", state"` suffix and the fall-back to `display_name`. */
module Geocoding {
  import opened Wrappers
  import opened Text

  /** The `address` object's fields the selection looks at, each `None`
      when the key is missing or its value is JSON `null`. */
  datatype Address = Address(
    neighbourhood: Option<string>,
    quarter: Option<string>,
    suburb: Option<string>,
    village: Option<string>,
    town: Option<string>,
    cityDistrict: Option<string>,
    city: Option<string>,
    county: Option<string>,
    state: Option<string>)

  /** The top-level answer: its `name`, its `address` object if present and
      the text of its `display_name` if present. */
  datatype Place = Place(name: Option<string>, address: Option<Address>, displayName: Option<string>)

  // ---------------------------------------------------------------------------
  // Names

  /** `isValidPlaceName`: present, not blank after trimming, and not a run of
      decimal digits (`matches("\\d+")`, on the untrimmed text). */
  predicate IsValidPlaceName(name: Option<string>) {
    name.Some? && !IsBlank(name.value) && !AllDigits(name.value)
  }

  /** A valid place name, character by character: it has a character that
      `trim` keeps and a character that is not a digit. */
  lemma ValidPlaceNameChars(name: Option<string>)
    ensures IsValidPlaceName(name) <==>
      && name.Some?
      && (exists i :: 0 <= i < |name.value| && !IsTrimmable(name.value[i]))
      && (exists i :: 0 <= i < |name.value| && !IsDigit(name.value[i]))
  {
    if name.Some? && !IsBlank(name.value) {
      assert name.value != [];
    }
  }

  /** `isBroaderThan`'s answer: the root name is present and equals, ignoring
      case, one of the names that are present. */
  predicate Broader(root: Option<string>, names: seq<Option<string>>) {
    root.Some? && exists i :: 0 <= i < |names| && names[i].Some? && EqualsIgnoreCase(root.value, names[i].value)
  }

  /** `isBroaderThan`: scans the names and stops at the first present one
      equal to the root name, ignoring case. */
  method IsBroaderThan(root: Option<string>, names: seq<Option<string>>) returns (b: bool)
    ensures b <==> Broader(root, names)
  {
    if root.None? {
      return false;
    }
    for k := 0 to |names|
      invariant forall i :: 0 <= i < k ==> !(names[i].Some? && EqualsIgnoreCase(root.value, names[i].value))
    {
      if names[k].Some? && EqualsIgnoreCase(root.value, names[k].value) {
        return true;
      }
    }
    return false;
  }

  /** The names the root `name` is compared with, in the source's order;
      `county` is not among them. */
  function SpecificNames(a: Address): seq<Option<string>> {
    [a.city, a.town, a.village, a.suburb, a.quarter, a.neighbourhood, a.cityDistrict]
  }

  /** The fields tried after the root name, from the most to the least
      specific. */
  function Fallbacks(a: Address): seq<Option<string>> {
    [a.neighbourhood, a.quarter, a.suburb, a.village, a.town, a.cityDistrict, a.city, a.county]
  }

  /** The root `name` is used when it is valid and is not merely the name of
      one of the enclosing areas. */
  predicate RootChosen(name: Option<string>, a: Address) {
    IsValidPlaceName(name) && !Broader(name, SpecificNames(a))
  }

  // ---------------------------------------------------------------------------
  // The primary place

  /** The primary place: the root name when it is chosen, otherwise the
      first valid field in the order neighbourhood, quarter, suburb, village,
      town, city district, city, county; `None` when nothing is valid. The
      source writes the search as a chain of `if`s, one per field. */
  function Primary(name: Option<string>, a: Address): (r: Option<string>)
    ensures r.Some? ==> IsValidPlaceName(r) && (r == name || r in Fallbacks(a))
    ensures r.None? <==>
      !RootChosen(name, a) && forall i :: 0 <= i < |Fallbacks(a)| ==> !IsValidPlaceName(Fallbacks(a)[i])
    ensures !RootChosen(name, a) ==> r == FirstValid(Fallbacks(a))
  {
    if RootChosen(name, a) then name else FirstValid(Fallbacks(a))
  }

  /** The first valid name of a list, or `None` when none is valid. */
  function FirstValid(names: seq<Option<string>>): (r: Option<string>)
    ensures r.None? <==> forall i :: 0 <= i < |names| ==> !IsValidPlaceName(names[i])
    ensures r.Some? ==> IsValidPlaceName(r) && r in names
  {
    if names == [] then None
    else if IsValidPlaceName(names[0]) then names[0]
    else
      var r := FirstValid(names[1..]);
      assert names == [names[0]] + names[1..];
      r
  }

  /** A valid name with only invalid names before it is the one chosen. */
  lemma {:induction false} FirstValidIsFirst(names: seq<Option<string>>, k: nat)
    requires k < |names| && IsValidPlaceName(names[k])
    requires forall j :: 0 <= j < k ==> !IsValidPlaceName(names[j])
    ensures FirstValid(names) == names[k]
  {
    if k > 0 {
      assert names[1..][k - 1] == names[k];
      FirstValidIsFirst(names[1..], k - 1);
    }
  }

  /** With a valid root name that matches none of the enclosing areas, the
      root name is the primary place whatever the fields hold; a root name
      equal to the county does not stop it. */
  lemma RootNameWins(name: Option<string>, a: Address)
    requires IsValidPlaceName(name)
    requires forall i :: 0 <= i < |SpecificNames(a)| ==>
      SpecificNames(a)[i].None? || !EqualsIgnoreCase(name.value, SpecificNames(a)[i].value)
    ensures Primary(name, a) == name
  {
  }

  // ---------------------------------------------------------------------------
  // The state suffix

  /** The state is appended when it is present, differs from the primary
      place and equals none of the eight address fields, all ignoring case. */
  predicate AddsState(primary: string, a: Address) {
    && a.state.Some?
    && !EqualsIgnoreCase(a.state.value, primary)
    && forall i :: 0 <= i < |Fallbacks(a)| ==>
         Fallbacks(a)[i].None? || !EqualsIgnoreCase(Fallbacks(a)[i].value, a.state.value)
  }

  /** The name shown for a primary place: `primary + ", " + state` or the
      primary place alone. */
  function Labelled(primary: string, a: Address): (r: string)
    ensures StartsWith(r, primary)
  {
    if AddsState(primary, a) then primary + (", " + a.state.value) else primary
  }

  /** The suffix is there exactly when the state adds something: it is
      present, and neither the primary place nor any address field already
      names it. */
  lemma LabelledShowsNewState(primary: string, a: Address)
    ensures Labelled(primary, a) != primary <==> AddsState(primary, a)
    ensures AddsState(primary, a) ==> Labelled(primary, a) == primary + (", " + a.state.value)
  {
  }

  /** A state that is also the name of the city (or of any other field) is
      never repeated. */
  lemma StateNamedByFieldIsDropped(primary: string, a: Address, i: nat)
    requires i < |Fallbacks(a)| && Fallbacks(a)[i].Some? && a.state.Some?
    requires EqualsIgnoreCase(a.state.value, Fallbacks(a)[i].value)
    ensures Labelled(primary, a) == primary
  {
    EqualsIgnoreCaseSymmetric(a.state.value, Fallbacks(a)[i].value);
  }

  // ---------------------------------------------------------------------------
  // The display_name fall-back

  /** `displayName.split(",")[0].trim()`; `None` when the split leaves no
      piece, where indexing throws and the service answers `null`. */
  function FirstComponent(d: string): (r: Option<string>)
  {
    var pieces := JavaSplit(d, ",");
    if pieces == [] then None else Some(Trim(pieces[0]))
  }

  /** The text before the first comma, or all of it. */
  function BeforeComma(d: string): (r: string)
    ensures ',' !in r
    ensures |r| <= |d| && r == d[..|r|]
    ensures |r| < |d| ==> d[|r|] == ','
  {
    match FindFrom(d, ",", 0)
    case None =>
      assert forall j :: 0 <= j < |d| ==> !MatchAt(d, ",", j) && d[j..j + 1] == [d[j]];
      d
    case Some(k) =>
      assert forall j :: 0 <= j < k ==> !MatchAt(d, ",", j) && d[j..j + 1] == [d[j]];
      assert d[k..k + 1] == ",";
      d[..k]
  }

  predicate AllEmpty(pieces: seq<string>) {
    forall i :: 0 <= i < |pieces| ==> pieces[i] == []
  }

  predicate OnlyCommas(d: string) {
    forall i :: 0 <= i < |d| ==> d[i] == ','
  }

  /** A string that does not start with a comma has no match at 0. */
  lemma NoMatchAtStart(d: string)
    requires d != [] && !MatchAt(d, ",", 0)
    ensures d[0] != ','
  {
    assert d[0..1] == [d[0]];
  }

  /** Splitting a string of commas leaves only empty pieces, and only such a
      string does. */
  lemma {:induction false} SplitAllEmpty(d: string)
    decreases |d|
    ensures AllEmpty(SplitOn(d, ",")) <==> OnlyCommas(d)
  {
    var ps := SplitOn(d, ",");
    match FindFrom(d, ",", 0)
    case None =>
      assert ps == [d];
      if d != [] {
        NoMatchAtStart(d);
        assert ps[0] != [];
      }
    case Some(k) =>
      var rest := d[k + 1..];
      var qs := SplitOn(rest, ",");
      assert ps == [d[..k]] + qs;
      SplitAllEmpty(rest);
      assert AllEmpty(ps) <==> d[..k] == [] && AllEmpty(qs) by {
        assert forall i :: 0 <= i < |qs| ==> ps[i + 1] == qs[i];
      }
      if k == 0 {
        assert d[0..1] == ",";
        assert OnlyCommas(d) <==> OnlyCommas(rest) by {
          assert forall i :: 1 <= i < |d| ==> d[i] == rest[i - 1];
        }
      } else {
        NoMatchAtStart(d);
        assert d[..k] != [];
      }
  }

  /** The fall-back fails exactly on a non-empty string of commas only;
      otherwise it is the trimmed text before the first comma. */
  lemma FirstComponentCharacterised(d: string)
    ensures FirstComponent(d).None? <==> d != [] && OnlyCommas(d)
    ensures FirstComponent(d).Some? ==> FirstComponent(d).value == Trim(BeforeComma(d))
  {
    var raw := SplitOn(d, ",");
    assert raw[0] == BeforeComma(d);
    SplitAllEmpty(d);
    if FindFrom(d, ",", 0).Some? {
      var r := DropTrailingEmpty(raw);
      assert r == [] <==> AllEmpty(raw);
      if r != [] {
        assert r[0] == raw[0];
      }
    } else if d != [] {
      NoMatchAtStart(d);
    }
  }

  // ---------------------------------------------------------------------------
  // getPlaceName

  /** The choice made on a parsed answer: the labelled primary place when the
      address yields one, otherwise the `display_name` fall-back, otherwise
      `None`. */
  function SelectPlace(root: Place): (r: Option<string>)
  {
    if root.address.Some? && Primary(root.name, root.address.value).Some? then
      Some(Labelled(Primary(root.name, root.address.value).value, root.address.value))
    else if root.displayName.Some? then
      FirstComponent(root.displayName.value)
    else
      None
  }

  /** A name taken from the address starts with a valid name, that is the
      root name or one of the eight fields, so it is neither blank nor a bare
      number; without such a name the answer is the `display_name`
      fall-back. */
  lemma SelectPlaceSources(root: Place)
    ensures root.address.Some? && Primary(root.name, root.address.value).Some? ==>
      exists p :: p == Primary(root.name, root.address.value).value &&
        IsValidPlaceName(Some(p)) && StartsWith(SelectPlace(root).value, p) &&
        (Some(p) == root.name || Some(p) in Fallbacks(root.address.value))
    ensures !(root.address.Some? && Primary(root.name, root.address.value).Some?) ==>
      SelectPlace(root) == if root.displayName.Some? then FirstComponent(root.displayName.value) else None
  {
    if root.address.Some? && Primary(root.name, root.address.value).Some? {
      var a := root.address.value;
      var p := Primary(root.name, a).value;
      assert IsValidPlaceName(Some(p)) && StartsWith(SelectPlace(root).value, p);
    }
  }

  /** The body is handed to the parser only when it is not blank and
      starts with `{` or `[` once trimmed. */
  predicate LooksLikeJson(body: string) {
    !IsBlank(body) && (StartsWith(Trim(body), "{") || StartsWith(Trim(body), "["))
  }

  /** `getPlaceName` once the HTTP answer is in: no body, a blank body or
      one that does not start with `{` or `[` after trimming gives `None`, as
      does a body the parser rejects; otherwise the choice above. */
  function GetPlaceName(body: Option<string>, parse: string -> Option<Place>): (r: Option<string>)
    ensures r.Some? ==> body.Some? && LooksLikeJson(body.value) && parse(body.value).Some?
    ensures body.Some? && LooksLikeJson(body.value) && parse(body.value).Some? ==>
      r == SelectPlace(parse(body.value).value)
  {
    if body.None? || !LooksLikeJson(body.value) then None
    else match parse(body.value)
      case None => None
      case Some(root) => SelectPlace(root)
  }

  /** Only the first character after trimming decides whether the body is
      handed to the parser. */
  lemma LooksLikeJsonFirstChar(body: string)
    ensures LooksLikeJson(body) <==> Trim(body) != [] && Trim(body)[0] in {'{', '['}
  {
    var t := Trim(body);
    StartsWithOneChar(t, '{');
    StartsWithOneChar(t, '[');
  }

  /** A one-character prefix is the first character. */
  lemma StartsWithOneChar(t: string, c: char)
    ensures StartsWith(t, [c]) <==> t != [] && t[0] == c
  {
    if t != [] {
      assert t[..1] == [t[0]];
    }
  }
}
