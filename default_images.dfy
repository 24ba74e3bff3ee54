/**
 * The fallback trip images (src/lib/defaultImages.ts): a table of eleven
 * themed entries and the keyword classifier that picks one from a trip's
 * title and locations. Matching is case-insensitive substring search over
 * the lower-cased title and the space-joined, lower-cased locations, with
 * a space between the two; the themes are tried in a fixed priority order
 * and the first one with a keyword in the text wins.
 */
module DefaultImages {
  import opened Text

  datatype Theme = General | Asia | Europe | America | Africa | Australia | City | Beach | Mountains | Forest | Desert

  datatype ImageInfo = ImageInfo(url: string, hint: string, alt: string)

  /** The URL every entry of the table uses. */
  const PexelsUrl := "https://images.pexels.com/photos/3155666/pexels-photo-3155666.jpeg?auto=compress&cs=tinysrgb&w=1260&h=750&dpr=1"

  /** The `defaultImages` table. */
  function Image(t: Theme): ImageInfo {
    match t
    case General => ImageInfo(PexelsUrl, "travel landscape mountains", "Beautiful mountain landscape")
    case Asia => ImageInfo(PexelsUrl, "asia temple mountains", "Asian temple and mountains")
    case Europe => ImageInfo(PexelsUrl, "europe architecture city", "European architecture")
    case America => ImageInfo(PexelsUrl, "america landscape nature", "American landscape")
    case Africa => ImageInfo(PexelsUrl, "africa safari wildlife", "African safari")
    case Australia => ImageInfo(PexelsUrl, "australia beach ocean", "Australian beach")
    case City => ImageInfo(PexelsUrl, "city skyline urban", "City skyline")
    case Beach => ImageInfo(PexelsUrl, "beach ocean sunset", "Beach sunset")
    case Mountains => ImageInfo(PexelsUrl, "mountains landscape nature", "Mountain landscape")
    case Forest => ImageInfo(PexelsUrl, "forest trees nature", "Forest landscape")
    case Desert => ImageInfo(PexelsUrl, "desert sand dunes", "Desert landscape")
  }

  /** The entries of the table, in declaration order. */
  const Table: seq<ImageInfo> := [Image(General), Image(Asia), Image(Europe), Image(America), Image(Africa),
    Image(Australia), Image(City), Image(Beach), Image(Mountains), Image(Forest), Image(Desert)]

  /** The text the keywords are looked for in. */
  function Combined(title: string, locations: seq<string>): string {
    Lower(title) + " " + Lower(Join(locations, " "))
  }

  /** The `if` chain of `getDefaultImage`, in its order. */
  function Classify(c: string): Theme {
    if Contains(c, "asia") || Contains(c, "china") || Contains(c, "japan") || Contains(c, "thailand")
       || Contains(c, "vietnam") then Asia
    else if Contains(c, "europe") || Contains(c, "paris") || Contains(c, "rome") || Contains(c, "barcelona")
       || Contains(c, "london") then Europe
    else if Contains(c, "america") || Contains(c, "usa") || Contains(c, "canada") || Contains(c, "mexico") then America
    else if Contains(c, "africa") || Contains(c, "safari") || Contains(c, "kenya") || Contains(c, "south africa") then Africa
    else if Contains(c, "australia") || Contains(c, "sydney") || Contains(c, "melbourne") then Australia
    else if Contains(c, "beach") || Contains(c, "ocean") || Contains(c, "coast") then Beach
    else if Contains(c, "mountain") || Contains(c, "hiking") || Contains(c, "climbing") then Mountains
    else if Contains(c, "forest") || Contains(c, "jungle") || Contains(c, "nature") then Forest
    else if Contains(c, "desert") || Contains(c, "sahara") then Desert
    else if Contains(c, "city") || Contains(c, "urban") || Contains(c, "downtown") then City
    else General
  }

  /** `getDefaultImage`. */
  function GetDefaultImage(title: string, locations: seq<string>): ImageInfo {
    Image(Classify(Combined(title, locations)))
  }

  // ---------------------------------------------------------------------
  // A table-driven reading of the same classifier

  /** Each theme's keywords. */
  function Keywords(t: Theme): seq<string> {
    match t
    case General => []
    case Asia => ["asia", "china", "japan", "thailand", "vietnam"]
    case Europe => ["europe", "paris", "rome", "barcelona", "london"]
    case America => ["america", "usa", "canada", "mexico"]
    case Africa => ["africa", "safari", "kenya", "south africa"]
    case Australia => ["australia", "sydney", "melbourne"]
    case Beach => ["beach", "ocean", "coast"]
    case Mountains => ["mountain", "hiking", "climbing"]
    case Forest => ["forest", "jungle", "nature"]
    case Desert => ["desert", "sahara"]
    case City => ["city", "urban", "downtown"]
  }

  /** The order the themes are tried in. */
  const Priority: seq<Theme> := [Asia, Europe, America, Africa, Australia, Beach, Mountains, Forest, Desert, City]

  /** Some keyword of the list occurs in `c`. */
  predicate AnyIn(c: string, kws: seq<string>) {
    exists i :: 0 <= i < |kws| && Contains(c, kws[i])
  }

  predicate Hits(c: string, t: Theme) {
    AnyIn(c, Keywords(t))
  }

  /** The first theme of `themes` with a keyword in `c`, or General. */
  function FirstHit(themes: seq<Theme>, c: string): Theme {
    if themes == [] then General
    else if Hits(c, themes[0]) then themes[0]
    else FirstHit(themes[1..], c)
  }

  /** The `if` chain is exactly "first theme in priority order with a hit". */
  lemma ClassifyIsFirstHit(c: string)
    ensures Classify(c) == FirstHit(Priority, c)
  {
    PriorityUnfolded(c);
    HitsAsia(c);
    HitsEurope(c);
    HitsAmerica(c);
    HitsAfrica(c);
    HitsAustralia(c);
    HitsBeach(c);
    HitsMountains(c);
    HitsForest(c);
    HitsDesert(c);
    HitsCity(c);
  }

  lemma PriorityUnfolded(c: string)
    ensures FirstHit(Priority, c)
         == if Hits(c, Asia) then Asia
            else if Hits(c, Europe) then Europe
            else if Hits(c, America) then America
            else if Hits(c, Africa) then Africa
            else if Hits(c, Australia) then Australia
            else if Hits(c, Beach) then Beach
            else if Hits(c, Mountains) then Mountains
            else if Hits(c, Forest) then Forest
            else if Hits(c, Desert) then Desert
            else if Hits(c, City) then City
            else General
  {
    var p := Priority;
    assert p[1..] == [Europe, America, Africa, Australia, Beach, Mountains, Forest, Desert, City];
    assert p[2..] == [America, Africa, Australia, Beach, Mountains, Forest, Desert, City];
    assert p[3..] == [Africa, Australia, Beach, Mountains, Forest, Desert, City];
    assert p[4..] == [Australia, Beach, Mountains, Forest, Desert, City];
    assert p[5..] == [Beach, Mountains, Forest, Desert, City];
    assert p[6..] == [Mountains, Forest, Desert, City];
    assert p[7..] == [Forest, Desert, City];
    assert p[8..] == [Desert, City];
    assert p[9..] == [City];
    assert p[10..] == [];
    assert FirstHit(p[9..], c) == (if Hits(c, City) then City else General);
    assert FirstHit(p[8..], c) == (if Hits(c, Desert) then Desert else FirstHit(p[9..], c));
    assert FirstHit(p[7..], c) == (if Hits(c, Forest) then Forest else FirstHit(p[8..], c));
    assert FirstHit(p[6..], c) == (if Hits(c, Mountains) then Mountains else FirstHit(p[7..], c));
    assert FirstHit(p[5..], c) == (if Hits(c, Beach) then Beach else FirstHit(p[6..], c));
    assert FirstHit(p[4..], c) == (if Hits(c, Australia) then Australia else FirstHit(p[5..], c));
    assert FirstHit(p[3..], c) == (if Hits(c, Africa) then Africa else FirstHit(p[4..], c));
    assert FirstHit(p[2..], c) == (if Hits(c, America) then America else FirstHit(p[3..], c));
    assert FirstHit(p[1..], c) == (if Hits(c, Europe) then Europe else FirstHit(p[2..], c));
  }

  lemma HitsAsia(c: string)
    ensures Hits(c, Asia) <==> Contains(c, "asia") || Contains(c, "china") || Contains(c, "japan")
                               || Contains(c, "thailand") || Contains(c, "vietnam")
  {
    var k := Keywords(Asia);
    assert k[0] == "asia" && k[1] == "china" && k[2] == "japan" && k[3] == "thailand" && k[4] == "vietnam";
  }

  lemma HitsEurope(c: string)
    ensures Hits(c, Europe) <==> Contains(c, "europe") || Contains(c, "paris") || Contains(c, "rome")
                                 || Contains(c, "barcelona") || Contains(c, "london")
  {
    var k := Keywords(Europe);
    assert k[0] == "europe" && k[1] == "paris" && k[2] == "rome" && k[3] == "barcelona" && k[4] == "london";
  }

  lemma HitsAmerica(c: string)
    ensures Hits(c, America) <==> Contains(c, "america") || Contains(c, "usa") || Contains(c, "canada")
                                  || Contains(c, "mexico")
  {
    var k := Keywords(America);
    assert k[0] == "america" && k[1] == "usa" && k[2] == "canada" && k[3] == "mexico";
  }

  lemma HitsAfrica(c: string)
    ensures Hits(c, Africa) <==> Contains(c, "africa") || Contains(c, "safari") || Contains(c, "kenya")
                                 || Contains(c, "south africa")
  {
    var k := Keywords(Africa);
    assert k[0] == "africa" && k[1] == "safari" && k[2] == "kenya" && k[3] == "south africa";
  }

  lemma HitsAustralia(c: string)
    ensures Hits(c, Australia) <==> Contains(c, "australia") || Contains(c, "sydney") || Contains(c, "melbourne")
  {
    var k := Keywords(Australia);
    assert k[0] == "australia" && k[1] == "sydney" && k[2] == "melbourne";
  }

  lemma HitsBeach(c: string)
    ensures Hits(c, Beach) <==> Contains(c, "beach") || Contains(c, "ocean") || Contains(c, "coast")
  {
    var k := Keywords(Beach);
    assert k[0] == "beach" && k[1] == "ocean" && k[2] == "coast";
  }

  lemma HitsMountains(c: string)
    ensures Hits(c, Mountains) <==> Contains(c, "mountain") || Contains(c, "hiking") || Contains(c, "climbing")
  {
    var k := Keywords(Mountains);
    assert k[0] == "mountain" && k[1] == "hiking" && k[2] == "climbing";
  }

  lemma HitsForest(c: string)
    ensures Hits(c, Forest) <==> Contains(c, "forest") || Contains(c, "jungle") || Contains(c, "nature")
  {
    var k := Keywords(Forest);
    assert k[0] == "forest" && k[1] == "jungle" && k[2] == "nature";
  }

  lemma HitsDesert(c: string)
    ensures Hits(c, Desert) <==> Contains(c, "desert") || Contains(c, "sahara")
  {
    var k := Keywords(Desert);
    assert k[0] == "desert" && k[1] == "sahara";
  }

  lemma HitsCity(c: string)
    ensures Hits(c, City) <==> Contains(c, "city") || Contains(c, "urban") || Contains(c, "downtown")
  {
    var k := Keywords(City);
    assert k[0] == "city" && k[1] == "urban" && k[2] == "downtown";
  }

  /**
   * First hit wins: the chosen theme has a keyword in the text and no theme
   * before it in the list does; General means no theme of the list has one.
   */
  lemma FirstHitSpec(themes: seq<Theme>, c: string)
    requires General !in themes
    ensures var r := FirstHit(themes, c);
      && (r == General <==> forall i :: 0 <= i < |themes| ==> !Hits(c, themes[i]))
      && (r != General ==> exists i :: 0 <= i < |themes| && themes[i] == r && Hits(c, r)
                                      && forall j :: 0 <= j < i ==> !Hits(c, themes[j]))
  {
    var hit := (t: Theme) => Hits(c, t);
    FirstHitIsFirstWhere(themes, c);
    FirstWhereSpec(themes, hit);
  }

  /** The first theme of `themes` satisfying `hit`, or General. */
  function FirstWhere(themes: seq<Theme>, hit: Theme -> bool): Theme {
    if themes == [] then General
    else if hit(themes[0]) then themes[0]
    else FirstWhere(themes[1..], hit)
  }

  lemma {:induction false} FirstHitIsFirstWhere(themes: seq<Theme>, c: string)
    ensures FirstHit(themes, c) == FirstWhere(themes, (t: Theme) => Hits(c, t))
  {
    if themes != [] {
      FirstHitIsFirstWhere(themes[1..], c);
    }
  }

  lemma {:induction false} FirstWhereSpec(themes: seq<Theme>, hit: Theme -> bool)
    requires General !in themes
    ensures var r := FirstWhere(themes, hit);
      && (r == General <==> forall i :: 0 <= i < |themes| ==> !hit(themes[i]))
      && (r != General ==> exists i :: 0 <= i < |themes| && themes[i] == r && hit(r)
                                      && forall j :: 0 <= j < i ==> !hit(themes[j]))
  {
    if themes == [] || hit(themes[0]) {
      return;
    }
    var rest := themes[1..];
    FirstWhereSpec(rest, hit);
    assert forall i :: 0 < i < |themes| ==> themes[i] == rest[i - 1];
    var r := FirstWhere(rest, hit);
    if r != General {
      var i :| 0 <= i < |rest| && rest[i] == r && hit(r) && forall j :: 0 <= j < i ==> !hit(rest[j]);
      assert themes[i + 1] == r;
    }
  }

  /**
   * The classifier's result: a theme wins exactly when one of its keywords
   * occurs and no keyword of a theme of higher priority does.
   */
  lemma ClassifySpec(title: string, locations: seq<string>)
    ensures var c := Combined(title, locations);
      var r := Classify(c);
      && GetDefaultImage(title, locations) == Image(r)
      && (r == General <==> forall i :: 0 <= i < |Priority| ==> !Hits(c, Priority[i]))
      && (r != General ==> exists i :: 0 <= i < |Priority| && Priority[i] == r && Hits(c, r)
                                      && forall j :: 0 <= j < i ==> !Hits(c, Priority[j]))
  {
    var c := Combined(title, locations);
    ClassifyIsFirstHit(c);
    FirstHitSpec(Priority, c);
  }

  /** The result is always an entry of the table, and every entry has the same URL. */
  lemma ResultInTable(title: string, locations: seq<string>)
    ensures GetDefaultImage(title, locations) in Table
    ensures GetDefaultImage(title, locations).url == PexelsUrl
  {
    ImageInTable(Classify(Combined(title, locations)));
  }

  /** Every entry of the table uses the same image URL. */
  lemma TableUrls()
    ensures forall i :: 0 <= i < |Table| ==> Table[i].url == PexelsUrl
  {
  }

  /** Every theme's image is an entry of the table. */
  lemma ImageInTable(t: Theme)
    ensures Image(t) in Table && Image(t).url == PexelsUrl
  {
    var k := match t
      case General => 0 case Asia => 1 case Europe => 2 case America => 3 case Africa => 4
      case Australia => 5 case City => 6 case Beach => 7 case Mountains => 8 case Forest => 9
      case Desert => 10;
    assert Table[k] == Image(t);
  }

  /** A keyword in the title is seen, whatever the locations are. */
  lemma TitleKeyword(title: string, locations: seq<string>, k: string)
    requires Contains(Lower(title), k)
    ensures Contains(Combined(title, locations), k)
  {
    var rest := " " + Lower(Join(locations, " "));
    OccursAtStart(Lower(title), rest);
    assert Lower(title) + rest == Combined(title, locations);
    ContainsWithin(Lower(title) + rest, Lower(title), k, 0);
  }

  /** A keyword in one location is seen too. */
  lemma LocationKeyword(title: string, locations: seq<string>, n: nat, k: string)
    requires n < |locations| && Contains(Lower(locations[n]), k)
    ensures Contains(Combined(title, locations), k)
  {
    var name, j := locations[n], Join(locations, " ");
    var off := JoinOffset(locations, " ", n);
    LowerOccurs(j, name, off);
    ContainsWithin(Lower(j), Lower(name), k, off);
    var base := Lower(title) + " ";
    OccursAtEnd(base, Lower(j));
    ContainsWithin(base + Lower(j), Lower(j), k, |base|);
  }

  /** Where the `n`th element sits in the joined string. */
  lemma {:induction false} JoinOffset(xs: seq<string>, sep: string, n: nat) returns (off: nat)
    requires n < |xs|
    ensures off + |xs[n]| <= |Join(xs, sep)| && Join(xs, sep)[off..off + |xs[n]|] == xs[n]
  {
    if |xs| == 1 {
      off := 0;
    } else if n == 0 {
      off := 0;
      assert Join(xs, sep) == xs[0] + (sep + Join(xs[1..], sep));
    } else {
      var o := JoinOffset(xs[1..], sep, n - 1);
      off := |xs[0]| + |sep| + o;
      assert Join(xs, sep) == (xs[0] + sep) + Join(xs[1..], sep);
    }
  }

  /** Case does not matter: a title or location differing only in letter case picks the same image. */
  lemma CaseInsensitive(title: string, locations: seq<string>)
    ensures GetDefaultImage(Lower(title), LowerAll(locations)) == GetDefaultImage(title, locations)
  {
    LowerIdempotent(title);
    LowerJoin(locations);
  }

  function LowerAll(xs: seq<string>): (r: seq<string>)
    ensures |r| == |xs| && forall i :: 0 <= i < |xs| ==> r[i] == Lower(xs[i])
  {
    seq(|xs|, i requires 0 <= i < |xs| => Lower(xs[i]))
  }

  lemma LowerIdempotent(s: string)
    ensures Lower(Lower(s)) == Lower(s)
  {
  }

  lemma {:induction false} LowerJoin(xs: seq<string>)
    ensures Lower(Join(LowerAll(xs), " ")) == Lower(Join(xs, " "))
  {
    if |xs| > 1 {
      LowerJoin(xs[1..]);
      assert LowerAll(xs)[1..] == LowerAll(xs[1..]);
      LowerAppend(xs[0] + " ", Join(xs[1..], " "));
      LowerAppend(Lower(xs[0]) + " ", Join(LowerAll(xs[1..]), " "));
      LowerAppend(xs[0], " ");
      LowerAppend(Lower(xs[0]), " ");
      LowerIdempotent(xs[0]);
    } else if |xs| == 1 {
      LowerIdempotent(xs[0]);
    }
  }

  /** The example of the priority order: "japan paris" names an Asian and a European place, and Asia wins. */
  lemma JapanParisIsAsia()
    ensures GetDefaultImage("japan paris", []) == Image(Asia)
  {
    var c := Combined("japan paris", []);
    assert Lower("japan paris") == "japan paris";
    assert c == "japan paris ";
    assert OccursAt(c, "japan", 0);
    ContainsAt(c, "japan", 0);
  }
}
