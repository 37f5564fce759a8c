/** The seven-segment address of a physical slot, its printed form, and the identities read from it. */
module LocationCodes {
  import opened Strings

  const SEGMENT_COUNT := 7

  datatype CodeError = EmptySegment(name: string) | InvalidSegment(name: string, value: string) | Malformed(got: nat)

  datatype Parsed = Code(code: LocationCode) | Refused(error: CodeError)

  predicate IsCodeChar(c: char) {
    'A' <= c <= 'Z' || '0' <= c <= '9'
  }

  /** Non-empty and made of capital letters and digits only. */
  predicate ValidSegment(s: string) {
    s != "" && forall k :: 0 <= k < |s| ==> IsCodeChar(s[k])
  }

  datatype LocationCode = LocationCode(site: string, area: string, zone: string, aisle: string,
                                       bay: string, level: string, position: string) {
    function Segments(): seq<string> {
      [site, area, zone, aisle, bay, level, position]
    }

    predicate Valid() {
      forall k :: 0 <= k < SEGMENT_COUNT ==> ValidSegment(Segments()[k])
    }

    function String(): string {
      Join(Segments())
    }

    function ZoneId(): string {
      Join([site, area, zone])
    }

    function AisleId(): string {
      ZoneId() + "-" + aisle
    }
  }

  /** A code that passed validation; the only kind the map stores. */
  type Address = c: LocationCode | c.Valid() witness LocationCode("A", "A", "A", "A", "A", "A", "A")

  const SEGMENT_NAMES: seq<string> := ["site", "area", "zone", "aisle", "bay", "level", "position"]

  /** Checks the segments left to right and reports the first bad one. */
  function FirstBadSegment(segments: seq<string>, k: nat): (bad: nat)
    requires |segments| == SEGMENT_COUNT && k <= SEGMENT_COUNT
    ensures k <= bad <= SEGMENT_COUNT
    ensures forall i :: k <= i < bad ==> ValidSegment(segments[i])
    ensures bad < SEGMENT_COUNT ==> !ValidSegment(segments[bad])
    decreases SEGMENT_COUNT - k
  {
    if k == SEGMENT_COUNT || !ValidSegment(segments[k]) then k else FirstBadSegment(segments, k + 1)
  }

  function NewLocationCode(segments: seq<string>): (r: Parsed)
    requires |segments| == SEGMENT_COUNT
    ensures r.Code? <==> forall k :: 0 <= k < SEGMENT_COUNT ==> ValidSegment(segments[k])
    ensures r.Code? ==> r.code.Valid() && r.code.Segments() == segments
  {
    var bad := FirstBadSegment(segments, 0);
    if bad < SEGMENT_COUNT then
      Refused(if segments[bad] == "" then EmptySegment(SEGMENT_NAMES[bad])
              else InvalidSegment(SEGMENT_NAMES[bad], segments[bad]))
    else
      Code(LocationCode(segments[0], segments[1], segments[2], segments[3], segments[4], segments[5], segments[6]))
  }

  /** A refusal names the first segment that is empty or has a character outside the code alphabet. */
  lemma RefusalNamesTheSegment(segments: seq<string>)
    requires |segments| == SEGMENT_COUNT
    ensures match NewLocationCode(segments)
            case Code(_) => forall k :: 0 <= k < 7 ==> InAlphabet(segments[k])
            case Refused(error) =>
              var names := ["site", "area", "zone", "aisle", "bay", "level", "position"];
              exists k :: 0 <= k < 7 && FirstOutside(segments, k)
                && error == if segments[k] == "" then EmptySegment(names[k]) else InvalidSegment(names[k], segments[k])
  {
    forall k | 0 <= k < SEGMENT_COUNT ensures ValidSegment(segments[k]) == InAlphabet(segments[k]) {
      AlphabetIsCodeChars(segments[k]);
    }
    var bad := FirstBadSegment(segments, 0);
    if bad < SEGMENT_COUNT {
      assert FirstOutside(segments, bad);
    }
  }

  /** Not empty, and made of the ASCII capitals, 65 to 90, and digits, 48 to 57. */
  predicate InAlphabet(s: string) {
    s != "" && forall k :: 0 <= k < |s| ==> 65 <= s[k] as int <= 90 || 48 <= s[k] as int <= 57
  }

  ghost predicate FirstOutside(segments: seq<string>, k: nat) {
    k < |segments| && !InAlphabet(segments[k]) && forall i :: 0 <= i < k ==> InAlphabet(segments[i])
  }

  lemma AlphabetIsCodeChars(s: string)
    ensures ValidSegment(s) <==> InAlphabet(s)
  {
    forall k | 0 <= k < |s| ensures IsCodeChar(s[k]) <==> 65 <= s[k] as int <= 90 || 48 <= s[k] as int <= 57 {
    }
  }

  function ParseLocationCode(value: string): Parsed {
    var parts := Split(value);
    if |parts| != SEGMENT_COUNT then Refused(Malformed(|parts|)) else NewLocationCode(parts)
  }

  lemma ValidSegmentIsDashFree(s: string)
    requires ValidSegment(s)
    ensures DashFree(s)
  {
  }

  lemma ValidSegmentsAreDashFree(parts: seq<string>)
    requires forall k :: 0 <= k < |parts| ==> ValidSegment(parts[k])
    ensures AllDashFree(parts)
  {
    forall k | 0 <= k < |parts| ensures DashFree(parts[k]) {
      ValidSegmentIsDashFree(parts[k]);
    }
  }

  /** Parsing accepts exactly the printed forms of valid codes, and gives back the code printed. */
  lemma ParseExactly(value: string, c: LocationCode)
    ensures ParseLocationCode(value) == Code(c) <==> c.Valid() && c.String() == value
  {
    if ParseLocationCode(value) == Code(c) {
      JoinSplit(value);
    }
    if c.Valid() && c.String() == value {
      ValidSegmentsAreDashFree(c.Segments());
      SplitJoin(c.Segments());
    }
  }

  /** Two valid codes that print alike are the same code. */
  lemma PrintedCodesAreDistinct(c: LocationCode, d: LocationCode)
    requires c.Valid() && d.Valid() && c.String() == d.String()
    ensures c == d
  {
    ParseExactly(c.String(), c);
    ParseExactly(d.String(), d);
  }

  lemma AisleIdIsJoined(c: LocationCode)
    ensures c.AisleId() == Join([c.site, c.area, c.zone, c.aisle])
  {
    assert [c.site, c.area, c.zone, c.aisle] == [c.site, c.area, c.zone] + [c.aisle];
    JoinAppend([c.site, c.area, c.zone], [c.aisle]);
  }

  /** Listing slots by the text prefix "SITE-AREA-ZONE-" finds exactly the codes in that zone. */
  lemma ZonePrefixIsZoneId(c: LocationCode, site: string, area: string, zone: string)
    requires c.Valid() && ValidSegment(site) && ValidSegment(area) && ValidSegment(zone)
    ensures HasPrefix(c.String(), Join([site, area, zone]) + "-") <==> c.ZoneId() == Join([site, area, zone])
  {
    var p := [site, area, zone];
    ValidSegmentsAreDashFree(c.Segments());
    ValidSegmentsAreDashFree(p);
    var q := c.Segments()[..3];
    assert q == [c.site, c.area, c.zone];
    ValidSegmentsAreDashFree(q);
    PrefixIsLeadingParts(c.Segments(), p);
    SplitJoin(p);
    SplitJoin(q);
  }

  /** Listing slots by the text prefix "SITE-AREA-ZONE-AISLE-" finds exactly the codes in that aisle. */
  lemma AislePrefixIsAisleId(c: LocationCode, site: string, area: string, zone: string, aisle: string)
    requires c.Valid() && ValidSegment(site) && ValidSegment(area) && ValidSegment(zone) && ValidSegment(aisle)
    ensures HasPrefix(c.String(), Join([site, area, zone, aisle]) + "-")
            <==> c.AisleId() == Join([site, area, zone, aisle])
  {
    var p, q := [site, area, zone, aisle], c.Segments()[..4];
    assert q == [c.site, c.area, c.zone, c.aisle];
    AisleIdIsJoined(c);
    ValidSegmentsAreDashFree(c.Segments());
    ValidSegmentsAreDashFree(p);
    ValidSegmentsAreDashFree(q);
    PrefixIsLeadingParts(c.Segments(), p);
    SplitJoin(p);
    SplitJoin(q);
  }

  /** The projector's own reading of a printed code: its first three parts, or the text unchanged
      when it has fewer. */
  function ZoneOf(locationCode: string): string {
    var parts := Split(locationCode);
    if |parts| < 3 then locationCode else Join(parts[..3])
  }

  /** The projector and the domain agree on every code's zone. */
  lemma ZoneOfAgrees(c: LocationCode)
    requires c.Valid()
    ensures ZoneOf(c.String()) == c.ZoneId()
  {
    ValidSegmentsAreDashFree(c.Segments());
    SplitJoin(c.Segments());
    assert c.Segments()[..3] == [c.site, c.area, c.zone];
  }

  /** Zone ids name one site, area and zone. */
  lemma ZoneIdInjective(a: seq<string>, b: seq<string>)
    requires |a| == |b| == 3 && Join(a) == Join(b)
    requires forall k :: 0 <= k < 3 ==> ValidSegment(a[k]) && ValidSegment(b[k])
    ensures a == b
  {
    ValidSegmentsAreDashFree(a);
    ValidSegmentsAreDashFree(b);
    SplitJoin(a);
    SplitJoin(b);
  }

  /** Aisle ids name one zone and one aisle code, whatever text the zone id is. */
  lemma AisleIdInjective(z: string, a: string, z': string, a': string)
    requires ValidSegment(a) && ValidSegment(a') && z + "-" + a == z' + "-" + a'
    ensures z == z' && a == a'
  {
    ValidSegmentIsDashFree(a);
    ValidSegmentIsDashFree(a');
    JoinSplit(z);
    JoinSplit(z');
    SplitJoinThen(Split(z), a);
    SplitJoinThen(Split(z'), a');
    SplitDashFree(a);
    SplitDashFree(a');
    var p := Split(z) + [a];
    assert p == Split(z') + [a'];
    assert p[..|p| - 1] == Split(z) && p[|p| - 1] == a;
  }
}
