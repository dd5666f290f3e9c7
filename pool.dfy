/** The fixed pool of ambient background clips: twenty URLs that differ only
    in the clip number written in decimal (1.mp4 … 20.mp4). */
module VideoPool {

  /** The decimal digit for d, as JavaScript's number-to-string writes it. */
  function Digit(d: nat): (c: char)
    requires d < 10
    ensures '0' <= c <= '9'
    ensures c as int - '0' as int == d
  {
    ('0' as int + d) as char
  }

  /** The decimal rendering of n, most significant digit first, without
      leading zeros. */
  function DecimalString(n: nat): (s: string)
    ensures 1 <= |s|
    ensures n >= 10 ==> |s| >= 2
    ensures s[|s| - 1] == Digit(n % 10)
    decreases n
  {
    if n < 10 then [Digit(n)] else DecimalString(n / 10) + [Digit(n % 10)]
  }

  /** Two numbers with the same decimal rendering are equal. */
  lemma {:induction false} DecimalStringInjective(a: nat, b: nat)
    requires DecimalString(a) == DecimalString(b)
    ensures a == b
    decreases a
  {
    var sa, sb := DecimalString(a), DecimalString(b);
    if a >= 10 && b >= 10 {
      assert sa[..|sa| - 1] == DecimalString(a / 10);
      assert sb[..|sb| - 1] == DecimalString(b / 10);
      DecimalStringInjective(a / 10, b / 10);
    } else if a < 10 && b < 10 {
      assert Digit(a) == sa[0] == sb[0] == Digit(b);
    }
  }

  const ClipPrefix: string := "https://github.com/radiohost-cloud/loveluxurylife/raw/main/background/"
  const ClipSuffix: string := ".mp4"

  /** The URL of clip number n. */
  function ClipUrl(n: nat): string
  {
    ClipPrefix + DecimalString(n) + ClipSuffix
  }

  /** Different clip numbers give different URLs. */
  lemma ClipUrlInjective(a: nat, b: nat)
    requires ClipUrl(a) == ClipUrl(b)
    ensures a == b
  {
    var da, db := DecimalString(a), DecimalString(b);
    var u := ClipUrl(a);
    assert |da| == |db|;
    assert u[|ClipPrefix|..|ClipPrefix| + |da|] == da;
    assert ClipUrl(b)[|ClipPrefix|..|ClipPrefix| + |db|] == db;
    DecimalStringInjective(a, b);
  }

  const PoolSize: nat := 20

  /** The twenty clips, numbered from 1. */
  const VideoSources: seq<string> := seq(PoolSize, i requires 0 <= i => ClipUrl(i + 1))

  /** No URL occurs twice in pool. */
  predicate Distinct(pool: seq<string>)
  {
    forall i, j :: 0 <= i < j < |pool| ==> pool[i] != pool[j]
  }

  /** The pool has twenty entries, no two of them equal. */
  lemma VideoSourcesDistinct()
    ensures |VideoSources| == PoolSize
    ensures Distinct(VideoSources)
  {
    forall i, j | 0 <= i < j < |VideoSources|
      ensures VideoSources[i] != VideoSources[j]
    {
      if VideoSources[i] == VideoSources[j] {
        ClipUrlInjective(i + 1, j + 1);
      }
    }
  }
}
