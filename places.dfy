/** National sites and nearby places: the records the explorer shows, the sentinel strings
    that stand in for absent fields, and the lines it prints for them. */
module Places {
  import opened Wrappers
  import Sequences

  const NoAddress: string := "no address"
  const NoZipcode: string := "no zipcode"
  const NoPhone: string := "no phone"
  const NoCity: string := "no city"
  const NoCategory: string := "no category"

  // ---------------------------------------------------------------------------
  // National sites.

  /** A national site as scraped from its detail page. */
  datatype Site = Site(category: string, name: string, address: string, zipcode: string, phone: string)

  /** The one-line summary of a site: `name (category): address zipcode`. */
  function Info(site: Site): (r: string)
    ensures |r| == |site.name| + |site.category| + |site.address| + |site.zipcode| + 6
    ensures r[..|site.name|] == site.name
    ensures r[|site.name|..|site.name| + 2] == " ("
    ensures var n, c, a := |site.name|, |site.category|, |site.address|;
            && r[n + 2..n + 2 + c] == site.category
            && r[n + 2 + c..n + c + 5] == "): "
            && r[n + c + 5..n + c + a + 5] == site.address
            && r[n + c + a + 5] == ' '
    ensures r[|r| - |site.zipcode|..] == site.zipcode
  {
    site.name + " (" + site.category + "): " + site.address + " " + site.zipcode
  }

  /** The characters Python's `str.strip()` removes, restricted to ASCII. */
  predicate IsSpace(c: char)
  {
    c == ' ' || 9 <= c as int <= 13 || 28 <= c as int <= 31
  }

  /** The first position at or after `i` that does not hold whitespace, or `|s|`. */
  function SkipSpaces(s: string, i: nat): (a: nat)
    requires i <= |s|
    ensures i <= a <= |s|
    ensures forall j :: i <= j < a ==> IsSpace(s[j])
    ensures a == |s| || !IsSpace(s[a])
    decreases |s| - i
  {
    if i < |s| && IsSpace(s[i]) then SkipSpaces(s, i + 1) else i
  }

  /** The end of the text in `s[a..b]` once its trailing whitespace is dropped. */
  function TextEnd(s: string, a: nat, b: nat): (e: nat)
    requires a <= b <= |s|
    ensures a <= e <= b
    ensures forall j :: e <= j < b ==> IsSpace(s[j])
    ensures e == a || !IsSpace(s[e - 1])
    decreases b
  {
    if a < b && IsSpace(s[b - 1]) then TextEnd(s, a, b - 1) else b
  }

  /** `s` without leading and trailing whitespace: the part of `s` from its first to its last
      character that is not whitespace, preceded and followed only by whitespace; it neither
      starts nor ends with whitespace and is empty exactly when `s` is all whitespace. */
  function Strip(s: string): (r: string)
    ensures |r| <= |s|
    ensures var a := SkipSpaces(s, 0);
            && a + |r| <= |s|
            && r == s[a..a + |r|]
            && (forall i :: 0 <= i < a ==> IsSpace(s[i]))
            && (forall i :: a + |r| <= i < |s| ==> IsSpace(s[i]))
    ensures r == [] || (!IsSpace(r[0]) && !IsSpace(r[|r| - 1]))
    ensures r == [] <==> forall i :: 0 <= i < |s| ==> IsSpace(s[i])
  {
    var a := SkipSpaces(s, 0);
    var e := TextEnd(s, a, |s|);
    s[a..e]
  }

  /** The site record built from the fields of a detail page; a field whose markup is missing
      is `None`. The address needs both the locality and the region; the postal code and the
      phone are stripped of surrounding whitespace. */
  function SiteFromContact(category: string, name: string, locality: Option<string>, region: Option<string>,
                           postalCode: Option<string>, phone: Option<string>): (site: Site)
    ensures site.category == category && site.name == name
    ensures locality.None? || region.None? ==> site.address == NoAddress
    ensures locality.Some? && region.Some? ==> site.address == locality.value + ", " + region.value
    ensures postalCode.None? ==> site.zipcode == NoZipcode
    ensures postalCode.Some? ==> site.zipcode == Strip(postalCode.value)
    ensures postalCode.Some? ==> (site.zipcode == "" <==> forall i :: 0 <= i < |postalCode.value| ==> IsSpace(postalCode.value[i]))
    ensures phone.None? ==> site.phone == NoPhone
    ensures phone.Some? ==> site.phone == Strip(phone.value)
    ensures phone.Some? ==> (site.phone == "" <==> forall i :: 0 <= i < |phone.value| ==> IsSpace(phone.value[i]))
  {
    Site(category, name,
         if locality.Some? && region.Some? then locality.value + ", " + region.value else NoAddress,
         if postalCode.Some? then Strip(postalCode.value) else NoZipcode,
         if phone.Some? then Strip(phone.value) else NoPhone)
  }

  // ---------------------------------------------------------------------------
  // Nearby places.

  /** One result record of the nearby-places API, reduced to the fields the listing reads;
      each optional field is `None` when the record lacks it. */
  datatype PlaceRecord = PlaceRecord(name: string, address: Option<string>, city: Option<string>, category: Option<string>)

  /** A place with every optional field resolved to text. */
  datatype Place = Place(name: string, category: string, address: string, city: string)

  /** A field looked up with `sentinel` as its default, where an empty value also counts as absent. */
  function OrSentinel(field: Option<string>, sentinel: string): (r: string)
    ensures field.Some? && field.value != "" ==> r == field.value
    ensures field.None? || field.value == "" ==> r == sentinel
    ensures sentinel != "" ==> r != ""
  {
    var v := field.GetOr(sentinel);
    if v == "" then sentinel else v
  }

  /** Resolves the city, category and address of a result record. */
  function ResolvePlace(p: PlaceRecord): (r: Place)
    ensures r.name == p.name
    ensures r.city == OrSentinel(p.city, NoCity)
    ensures r.category == OrSentinel(p.category, NoCategory)
    ensures r.address == OrSentinel(p.address, NoAddress)
  {
    Place(p.name, OrSentinel(p.category, NoCategory), OrSentinel(p.address, NoAddress), OrSentinel(p.city, NoCity))
  }

  /** A resolved place never shows an empty city, category or address, and shows a field's own
      value whenever that value is present and non-empty. */
  lemma ResolvedFieldsNonEmpty(p: PlaceRecord)
    ensures ResolvePlace(p).city != "" && ResolvePlace(p).category != "" && ResolvePlace(p).address != ""
    ensures p.city.Some? && p.city.value != "" ==> ResolvePlace(p).city == p.city.value
    ensures p.city.None? || p.city == Some("") ==> ResolvePlace(p).city == NoCity
    ensures p.category.None? || p.category == Some("") ==> ResolvePlace(p).category == NoCategory
    ensures p.address.None? || p.address == Some("") ==> ResolvePlace(p).address == NoAddress
  {
  }

  /** The bullet line of one place: `- name (category): address, city`. */
  function PlaceLine(p: Place): (r: string)
    ensures |r| == |p.name| + |p.category| + |p.address| + |p.city| + 9
    ensures r[..2] == "- " && r[2..2 + |p.name|] == p.name
    ensures var n, c, a := |p.name|, |p.category|, |p.address|;
            && r[n + 2..n + 4] == " ("
            && r[n + 4..n + 4 + c] == p.category
            && r[n + 4 + c..n + c + 7] == "): "
            && r[n + c + 7..n + c + a + 7] == p.address
            && r[n + c + a + 7..n + c + a + 9] == ", "
    ensures r[|r| - |p.city|..] == p.city
  {
    PlaceLineLayout(p);
    "- " + p.name + " (" + p.category + "): " + p.address + ", " + p.city
  }

  /** Where each part of a place's line sits, read off one prefix at a time. */
  lemma PlaceLineLayout(p: Place)
    ensures var r := "- " + p.name + " (" + p.category + "): " + p.address + ", " + p.city;
            var n, c, a := |p.name|, |p.category|, |p.address|;
            && |r| == n + c + a + |p.city| + 9
            && r[n + 2..n + 4] == " ("
            && r[n + 4..n + 4 + c] == p.category
            && r[n + 4 + c..n + c + 7] == "): "
            && r[n + c + 7..n + c + a + 7] == p.address
            && r[n + c + a + 7..n + c + a + 9] == ", "
  {
    var x2 := "- " + p.name + " (";
    var x3 := x2 + p.category;
    var x4 := x3 + "): ";
    var x5 := x4 + p.address;
    var x6 := x5 + ", ";
    var r := x6 + p.city;
    var n, c, a := |p.name|, |p.category|, |p.address|;
    Sequences.LastPart("- " + p.name, " (");
    Sequences.LastPart(x2, p.category);
    Sequences.LastPart(x3, "): ");
    Sequences.LastPart(x4, p.address);
    Sequences.LastPart(x5, ", ");
    Sequences.InPrefix(x2, p.category, n + 2, n + 4);
    Sequences.InPrefix(x3, "): ", n + 2, n + 4);
    Sequences.InPrefix(x4, p.address, n + 2, n + 4);
    Sequences.InPrefix(x5, ", ", n + 2, n + 4);
    Sequences.InPrefix(x6, p.city, n + 2, n + 4);
    Sequences.InPrefix(x3, "): ", n + 4, n + 4 + c);
    Sequences.InPrefix(x4, p.address, n + 4, n + 4 + c);
    Sequences.InPrefix(x5, ", ", n + 4, n + 4 + c);
    Sequences.InPrefix(x6, p.city, n + 4, n + 4 + c);
    Sequences.InPrefix(x4, p.address, n + 4 + c, n + c + 7);
    Sequences.InPrefix(x5, ", ", n + 4 + c, n + c + 7);
    Sequences.InPrefix(x6, p.city, n + 4 + c, n + c + 7);
    Sequences.InPrefix(x5, ", ", n + c + 7, n + c + a + 7);
    Sequences.InPrefix(x6, p.city, n + c + 7, n + c + a + 7);
    Sequences.InPrefix(x6, p.city, n + c + a + 7, n + c + a + 9);
  }

  /** A rule of `n` dashes. */
  function Dashes(n: nat): (r: string)
    ensures |r| == n && forall i :: 0 <= i < n ==> r[i] == '-'
  {
    seq(n, _ => '-')
  }

  /** Everything the listing of places near `site` shows: the header between two rules of its
      own length, then one resolved line per result, in order. */
  function PlacesReport(site: Site, results: seq<PlaceRecord>): (lines: seq<string>)
    ensures |lines| == |results| + 3
    ensures lines[1] == "Places near in " + site.name
    ensures lines[0] == lines[2] == Dashes(|lines[1]|)
    ensures forall i :: 0 <= i < |results| ==> lines[i + 3] == PlaceLine(ResolvePlace(results[i]))
  {
    var header := "Places near in " + site.name;
    [Dashes(|header|), header, Dashes(|header|)]
      + seq(|results|, i requires 0 <= i < |results| => PlaceLine(ResolvePlace(results[i])))
  }
}
