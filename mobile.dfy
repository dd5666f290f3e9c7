/** Mobile detection: the user agent string matched case-insensitively
    against the alternation Mobi|Android|iPhone|iPad|iPod. Every marker is
    ASCII, and a case-insensitive JavaScript regular expression without the
    `u` flag never folds a non-ASCII character onto an ASCII one, so the
    match is ASCII case folding. */
module MobileDetection {

  const MobileMarkers: seq<string> := ["Mobi", "Android", "iPhone", "iPad", "iPod"]

  /** ASCII upper-casing, the canonical form the matcher compares. */
  function Fold(c: char): char
  {
    if 'a' <= c <= 'z' then (c as int - 32) as char else c
  }

  /** a and b are equal up to ASCII case. */
  predicate FoldedEqual(a: string, b: string)
  {
    |a| == |b| && forall k :: 0 <= k < |a| ==> Fold(a[k]) == Fold(b[k])
  }

  /** Marker m occurs, up to case, in s starting at position i. */
  predicate OccursAt(s: string, i: nat, m: string)
  {
    i + |m| <= |s| && FoldedEqual(s[i..i + |m|], m)
  }

  /** Marker m occurs, up to case, somewhere in s. */
  predicate ContainsFolded(s: string, m: string)
  {
    exists i :: 0 <= i <= |s| && OccursAt(s, i, m)
  }

  /** The matcher: does s begin with m, up to case? */
  function StartsWithFolded(s: string, m: string): bool
  {
    if m == [] then true
    else if s == [] then false
    else Fold(s[0]) == Fold(m[0]) && StartsWithFolded(s[1..], m[1..])
  }

  /** Does s begin with one of markers, trying them in order? */
  function AnyMarkerAt(s: string, markers: seq<string>): bool
  {
    if markers == [] then false
    else StartsWithFolded(s, markers[0]) || AnyMarkerAt(s, markers[1..])
  }

  /** The regular-expression search: try every start position from i on. */
  function SearchFrom(userAgent: string, i: nat, markers: seq<string>): bool
    requires i <= |userAgent|
    decreases |userAgent| - i
  {
    AnyMarkerAt(userAgent[i..], markers) || (i < |userAgent| && SearchFrom(userAgent, i + 1, markers))
  }

  /** isMobile of the link card. */
  function IsMobile(userAgent: string): bool
  {
    SearchFrom(userAgent, 0, MobileMarkers)
  }

  lemma {:induction false} StartsWithFoldedMeans(s: string, m: string)
    ensures StartsWithFolded(s, m) <==> |m| <= |s| && FoldedEqual(s[..|m|], m)
    decreases |m|
  {
    if m != [] && s != [] {
      StartsWithFoldedMeans(s[1..], m[1..]);
      if |m| <= |s| {
        var a, b := s[..|m|], s[1..][..|m| - 1];
        assert a == [s[0]] + b;
        if FoldedEqual(a, m) {
          assert forall k :: 0 <= k < |b| ==> b[k] == a[k + 1] && m[1..][k] == m[k + 1];
        }
        if Fold(s[0]) == Fold(m[0]) && FoldedEqual(b, m[1..]) {
          forall k | 0 <= k < |a| ensures Fold(a[k]) == Fold(m[k]) {
            if k > 0 { assert a[k] == b[k - 1] && m[k] == m[1..][k - 1]; }
          }
        }
      }
    }
  }

  /** Trying the markers at position i of s succeeds exactly when one of
      them occurs there. */
  lemma {:induction false} AnyMarkerAtMeans(s: string, i: nat, markers: seq<string>)
    requires i <= |s|
    ensures AnyMarkerAt(s[i..], markers) <==> exists n :: 0 <= n < |markers| && OccursAt(s, i, markers[n])
    decreases |markers|
  {
    if markers != [] {
      var m := markers[0];
      StartsWithFoldedMeans(s[i..], m);
      if |m| <= |s[i..]| { assert s[i..][..|m|] == s[i..i + |m|]; }
      AnyMarkerAtMeans(s, i, markers[1..]);
      if exists n :: 0 <= n < |markers| && OccursAt(s, i, markers[n]) {
        var n :| 0 <= n < |markers| && OccursAt(s, i, markers[n]);
        if n > 0 { assert markers[1..][n - 1] == markers[n]; }
      }
      if AnyMarkerAt(s[i..], markers[1..]) {
        var n :| 0 <= n < |markers[1..]| && OccursAt(s, i, markers[1..][n]);
        assert markers[n + 1] == markers[1..][n];
      }
    }
  }

  /** Searching from position i succeeds exactly when some marker occurs at
      some position from i on. */
  lemma {:induction false} SearchFromMeans(userAgent: string, i: nat, markers: seq<string>)
    requires i <= |userAgent|
    ensures SearchFrom(userAgent, i, markers) <==>
              exists j, n :: i <= j <= |userAgent| && 0 <= n < |markers| && OccursAt(userAgent, j, markers[n])
    decreases |userAgent| - i
  {
    AnyMarkerAtMeans(userAgent, i, markers);
    if i < |userAgent| {
      SearchFromMeans(userAgent, i + 1, markers);
    }
    if exists j, n :: i <= j <= |userAgent| && 0 <= n < |markers| && OccursAt(userAgent, j, markers[n]) {
      var j, n :| i <= j <= |userAgent| && 0 <= n < |markers| && OccursAt(userAgent, j, markers[n]);
      if j > i {
        assert i + 1 <= j <= |userAgent|;
      }
    }
  }

  /** isMobile holds exactly when the user agent contains, ignoring case, one
      of "Mobi", "Android", "iPhone", "iPad" or "iPod". */
  lemma IsMobileIff(userAgent: string)
    ensures IsMobile(userAgent) <==> exists m :: m in MobileMarkers && ContainsFolded(userAgent, m)
  {
    SearchFromMeans(userAgent, 0, MobileMarkers);
    if exists m :: m in MobileMarkers && ContainsFolded(userAgent, m) {
      var m :| m in MobileMarkers && ContainsFolded(userAgent, m);
      var j :| 0 <= j <= |userAgent| && OccursAt(userAgent, j, m);
      var n :| 0 <= n < |MobileMarkers| && MobileMarkers[n] == m;
      assert OccursAt(userAgent, j, MobileMarkers[n]);
    }
    if IsMobile(userAgent) {
      var j, n :| 0 <= j <= |userAgent| && 0 <= n < |MobileMarkers| && OccursAt(userAgent, j, MobileMarkers[n]);
      assert ContainsFolded(userAgent, MobileMarkers[n]);
    }
  }

  /** The detection ignores ASCII case: user agents equal up to case are
      classified alike. */
  lemma IsMobileIgnoresCase(a: string, b: string)
    requires FoldedEqual(a, b)
    ensures IsMobile(a) == IsMobile(b)
  {
    SearchFromMeans(a, 0, MobileMarkers);
    SearchFromMeans(b, 0, MobileMarkers);
    forall j, n | 0 <= j <= |a| && 0 <= n < |MobileMarkers|
      ensures OccursAt(a, j, MobileMarkers[n]) == OccursAt(b, j, MobileMarkers[n])
    {
      var m := MobileMarkers[n];
      if j + |m| <= |a| {
        var sa, sb := a[j..j + |m|], b[j..j + |m|];
        forall k | 0 <= k < |m| ensures Fold(sa[k]) == Fold(sb[k]) {
          assert sa[k] == a[j + k] && sb[k] == b[j + k];
        }
      }
    }
  }

  /** A user agent with a marker written into it, in any case, is mobile. */
  lemma MarkerMakesMobile(before: string, marker: string, after: string)
    requires exists n :: 0 <= n < |MobileMarkers| && FoldedEqual(marker, MobileMarkers[n])
    ensures IsMobile(before + marker + after)
  {
    var ua := before + marker + after;
    var n :| 0 <= n < |MobileMarkers| && FoldedEqual(marker, MobileMarkers[n]);
    SearchFromMeans(ua, 0, MobileMarkers);
    assert ua[|before|..|before| + |marker|] == marker;
    assert OccursAt(ua, |before|, MobileMarkers[n]);
  }
}
