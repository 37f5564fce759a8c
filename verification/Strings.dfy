/** Hyphen-joined strings: splitting, joining, prefixes, and the order strings sort in. */
module Strings {
  function Split(s: string): (parts: seq<string>)
    ensures |parts| >= 1
  {
    if s == "" then
      [""]
    else if s[0] == '-' then
      [""] + Split(s[1..])
    else
      var rest := Split(s[1..]);
      [[s[0]] + rest[0]] + rest[1..]
  }

  function Join(parts: seq<string>): string {
    if parts == [] then ""
    else if |parts| == 1 then parts[0]
    else parts[0] + "-" + Join(parts[1..])
  }

  predicate HasPrefix(s: string, prefix: string) {
    |prefix| <= |s| && s[..|prefix|] == prefix
  }

  predicate DashFree(s: string) {
    '-' !in s
  }

  predicate AllDashFree(parts: seq<string>) {
    forall k :: 0 <= k < |parts| ==> DashFree(parts[k])
  }

  /** Joining the split parts gives the string back. */
  lemma {:induction false} JoinSplit(s: string)
    ensures Join(Split(s)) == s
    ensures AllDashFree(Split(s))
  {
    if s != "" {
      var rest := Split(s[1..]);
      JoinSplit(s[1..]);
      if s[0] == '-' {
        assert ([""] + rest)[1..] == rest;
      } else {
        assert ([[s[0]] + rest[0]] + rest[1..])[1..] == rest[1..];
      }
    }
  }

  /** A dash-free head is split off whole. */
  lemma {:induction false} SplitHead(a: string, t: string)
    requires DashFree(a)
    ensures Split(a + "-" + t) == [a] + Split(t)
  {
    var s := a + "-" + t;
    if a == "" {
      assert s[1..] == t;
    } else {
      assert s[1..] == a[1..] + "-" + t;
      SplitHead(a[1..], t);
      assert [s[0]] + a[1..] == a;
    }
  }

  lemma {:induction false} SplitDashFree(a: string)
    requires DashFree(a)
    ensures Split(a) == [a]
  {
    if a != "" {
      SplitDashFree(a[1..]);
      assert [a[0]] + a[1..] == a;
    }
  }

  /** Splitting undoes joining when no part holds a hyphen. */
  lemma {:induction false} SplitJoin(parts: seq<string>)
    requires parts != [] && AllDashFree(parts)
    ensures Split(Join(parts)) == parts
  {
    if |parts| == 1 {
      SplitDashFree(parts[0]);
    } else {
      SplitJoin(parts[1..]);
      SplitHead(parts[0], Join(parts[1..]));
    }
  }

  lemma DashesRegroup(a: string, b: string, t: string)
    ensures a + "-" + b + "-" + t == a + "-" + (b + "-" + t)
  {
  }

  lemma {:induction false} SplitJoinThen(parts: seq<string>, t: string)
    requires parts != [] && AllDashFree(parts)
    ensures Split(Join(parts) + "-" + t) == parts + Split(t)
  {
    if |parts| == 1 {
      SplitHead(parts[0], t);
    } else {
      var rest := Join(parts[1..]);
      SplitJoinThen(parts[1..], t);
      SplitHead(parts[0], rest + "-" + t);
      DashesRegroup(parts[0], rest, t);
      assert parts + Split(t) == [parts[0]] + (parts[1..] + Split(t));
    }
  }

  lemma {:induction false} JoinAppend(p: seq<string>, rest: seq<string>)
    requires p != [] && rest != []
    ensures Join(p + rest) == Join(p) + "-" + Join(rest)
  {
    if |p| > 1 {
      JoinAppend(p[1..], rest);
      assert (p + rest)[1..] == p[1..] + rest;
    } else {
      assert (p + rest)[1..] == rest;
    }
  }

  lemma PrefixThenRest(s: string, prefix: string)
    requires HasPrefix(s, prefix)
    ensures s == prefix + s[|prefix|..]
  {
  }

  lemma PartsOfPrefixed(segments: seq<string>, p: seq<string>, t: string)
    requires segments != [] && p != [] && AllDashFree(segments) && AllDashFree(p)
    requires Join(segments) == Join(p) + "-" + t
    ensures segments == p + Split(t)
  {
    SplitJoinThen(p, t);
    SplitJoin(segments);
  }

  lemma PrefixGivesLeadingParts(segments: seq<string>, p: seq<string>)
    requires segments != [] && p != [] && AllDashFree(segments) && AllDashFree(p)
    requires HasPrefix(Join(segments), Join(p) + "-")
    ensures |p| < |segments| && segments[..|p|] == p
  {
    PrefixThenRest(Join(segments), Join(p) + "-");
    var t := Join(segments)[|Join(p) + "-"|..];
    PartsOfPrefixed(segments, p, t);
  }

  lemma LeadingPartsGivePrefix(p: seq<string>, rest: seq<string>)
    requires p != [] && rest != []
    ensures HasPrefix(Join(p + rest), Join(p) + "-")
  {
    JoinAppend(p, rest);
    var prefix := Join(p) + "-";
    assert (prefix + Join(rest))[..|prefix|] == prefix;
  }

  /** Reading a joined string by prefix is reading its leading parts: the hyphen keeps "A1" from
      matching "A10". */
  lemma PrefixIsLeadingParts(segments: seq<string>, p: seq<string>)
    requires segments != [] && p != [] && AllDashFree(segments) && AllDashFree(p)
    ensures HasPrefix(Join(segments), Join(p) + "-") <==> |p| < |segments| && segments[..|p|] == p
  {
    if HasPrefix(Join(segments), Join(p) + "-") {
      PrefixGivesLeadingParts(segments, p);
    }
    if |p| < |segments| && segments[..|p|] == p {
      var rest := segments[|p|..];
      assert segments == p + rest;
      LeadingPartsGivePrefix(p, rest);
    }
  }

  /** The string ordering of sort.Strings: by first difference, a proper prefix first. */
  predicate Below(s: string, t: string) {
    if t == "" then false
    else if s == "" then true
    else s[0] < t[0] || (s[0] == t[0] && Below(s[1..], t[1..]))
  }

  /** They agree up to some place, and there the first string ends or has the lesser character. */
  ghost predicate FirstDiffersBelow(s: string, t: string, k: nat) {
    && k <= |s| && k < |t| && s[..k] == t[..k]
    && (k == |s| || s[k] < t[k])
  }

  lemma {:induction false} BelowExactly(s: string, t: string)
    ensures Below(s, t) <==> exists k: nat :: FirstDiffersBelow(s, t, k)
  {
    if t != "" && s == "" {
      assert FirstDiffersBelow(s, t, 0);
    } else if t != "" {
      BelowExactly(s[1..], t[1..]);
      if s[0] < t[0] {
        assert FirstDiffersBelow(s, t, 0);
      }
      if s[0] == t[0] && Below(s[1..], t[1..]) {
        var k: nat :| FirstDiffersBelow(s[1..], t[1..], k);
        assert s[..k + 1] == [s[0]] + s[1..][..k] && t[..k + 1] == [t[0]] + t[1..][..k];
        assert FirstDiffersBelow(s, t, k + 1);
      }
      if k: nat :| 0 < k && FirstDiffersBelow(s, t, k) {
        assert s[0] == s[..k][0] == t[..k][0] == t[0];
        assert s[1..][..k - 1] == s[..k][1..] && t[1..][..k - 1] == t[..k][1..];
        assert FirstDiffersBelow(s[1..], t[1..], k - 1);
      }
    }
  }

  lemma {:induction false} BelowTotal(s: string, t: string)
    ensures Below(s, t) || s == t || Below(t, s)
  {
    if s != "" && t != "" && s[0] == t[0] {
      BelowTotal(s[1..], t[1..]);
      assert s == [s[0]] + s[1..] && t == [t[0]] + t[1..];
    }
  }

  lemma {:induction false} BelowTransitive(s: string, t: string, u: string)
    requires Below(s, t) && Below(t, u)
    ensures Below(s, u)
  {
    if s != "" && s[0] == t[0] && t[0] == u[0] {
      BelowTransitive(s[1..], t[1..], u[1..]);
    }
  }

  lemma {:induction false} BelowIrreflexive(s: string)
    ensures !Below(s, s)
  {
    if s != "" {
      BelowIrreflexive(s[1..]);
    }
  }
}
