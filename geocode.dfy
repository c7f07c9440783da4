/** Geocoding results and the display name built from them (`GeocodeResult.display_name`). */
module Geocode {
  import opened Wrappers

  datatype GeocodeResult = GeocodeResult(
    id: Option<int>,
    name: string,
    country: Option<string>,
    admin1: Option<string>,
    latitude: real,
    longitude: real,
    timezone: Option<string>)

  const Separator: string := ", "

  /** Python's `sep.join(pieces)`. */
  function Join(pieces: seq<string>, sep: string): string
  {
    if |pieces| == 0 then ""
    else if |pieces| == 1 then pieces[0]
    else pieces[0] + sep + Join(pieces[1..], sep)
  }

  /** The pieces in the order the property collects them: name, then admin1, then country,
      each optional part only when it is truthy. */
  function Pieces(g: GeocodeResult): seq<string>
  {
    [g.name]
    + (if Truthy(g.admin1) then [g.admin1.value] else [])
    + (if Truthy(g.country) then [g.country.value] else [])
  }

  function DisplayName(g: GeocodeResult): string
  {
    Join(Pieces(g), Separator)
  }

  /** The text a truthy optional part contributes after what precedes it. */
  function Suffix(part: Option<string>): string
  {
    if Truthy(part) then Separator + part.value else ""
  }

  /** The joined display name is the name followed by ", admin1" and ", country",
      each present exactly when that part is truthy, always in this order. */
  lemma DisplayNameParts(g: GeocodeResult)
    ensures DisplayName(g) == g.name + Suffix(g.admin1) + Suffix(g.country)
  {
    var p := Pieces(g);
    if Truthy(g.admin1) && Truthy(g.country) {
      assert p == [g.name, g.admin1.value, g.country.value];
      assert p[1..] == [g.admin1.value, g.country.value];
      assert p[1..][1..] == [g.country.value];
      assert Join(p[1..], Separator) == g.admin1.value + Separator + g.country.value;
    } else if Truthy(g.admin1) {
      assert p == [g.name, g.admin1.value];
      assert p[1..] == [g.admin1.value];
      assert Join(p[1..], Separator) == g.admin1.value;
    } else if Truthy(g.country) {
      assert p == [g.name, g.country.value];
      assert p[1..] == [g.country.value];
      assert Join(p[1..], Separator) == g.country.value;
    } else {
      assert p == [g.name];
    }
  }

  /** The display name is the bare name exactly when neither optional part is truthy,
      and it always starts with the name. */
  lemma DisplayNameIsNameIff(g: GeocodeResult)
    ensures g.name <= DisplayName(g)
    ensures DisplayName(g) == g.name <==> !Truthy(g.admin1) && !Truthy(g.country)
  {
    DisplayNameParts(g);
  }

  /** Length of the display name: each truthy part adds its own length plus the separator. */
  lemma DisplayNameLength(g: GeocodeResult)
    ensures |DisplayName(g)| == |g.name|
      + (if Truthy(g.admin1) then 2 + |g.admin1.value| else 0)
      + (if Truthy(g.country) then 2 + |g.country.value| else 0)
  {
    DisplayNameParts(g);
  }
}
