/**
 A file URL is modelled by its path string. This module gives the two
 accessors the pickers use, `lastPathComponent` and `pathExtension`, and the
 case-insensitive `usdz` test built from `pathExtension.lowercased()`.
 */
module Urls {
  type Url = string

  const UsdzExtension := "usdz"

  /** ASCII lower-casing of one character; every other character is kept. */
  function LowerChar(c: char): char
  {
    if 'A' <= c <= 'Z' then (c as int + 32) as char else c
  }

  /** ASCII upper-casing of one character; every other character is kept. */
  function UpperChar(c: char): char
  {
    if 'a' <= c <= 'z' then (c as int - 32) as char else c
  }

  function Lower(s: string): string
  {
    seq(|s|, i requires 0 <= i < |s| => LowerChar(s[i]))
  }

  function Upper(s: string): string
  {
    seq(|s|, i requires 0 <= i < |s| => UpperChar(s[i]))
  }

  /** The position of the last `c` in `s`, or -1 when `c` does not occur. */
  function LastIndexOf(s: string, c: char): (i: int)
    ensures -1 <= i < |s|
    ensures i >= 0 ==> s[i] == c
    ensures forall j :: i < j < |s| ==> s[j] != c
    ensures i < 0 <==> c !in s
  {
    if |s| == 0 then -1
    else if s[|s| - 1] == c then |s| - 1
    else LastIndexOf(s[..|s| - 1], c)
  }

  /** `url.lastPathComponent`: everything after the last '/'. */
  function LastPathComponent(u: Url): (r: string)
    ensures '/' !in r
    ensures |r| <= |u| && u[|u| - |r|..] == r
    ensures '/' !in u ==> r == u
    ensures |r| < |u| ==> u[|u| - |r| - 1] == '/'
  {
    u[LastIndexOf(u, '/') + 1..]
  }

  /** No `c` after position `i` means `c` is not in the tail that starts after `i`. */
  lemma NotInTail(s: string, c: char, i: int)
    requires -1 <= i < |s|
    requires forall k :: i < k < |s| ==> s[k] != c
    ensures c !in s[i + 1..]
  {
  }

  /** `url.pathExtension`: what follows the last '.' of the last path component,
      "" when that component has no '.'. */
  function PathExtension(u: Url): (r: string)
    ensures '.' !in r && '/' !in r
    ensures |r| <= |u| && u[|u| - |r|..] == r
    ensures r != [] ==> |r| < |u| && u[|u| - |r| - 1] == '.'
    ensures LastIndexOf(u, '/') < LastIndexOf(u, '.') ==> |r| == |u| - LastIndexOf(u, '.') - 1
  {
    var s := LastIndexOf(u, '/');
    var d := LastIndexOf(u, '.');
    if d > s then
      NotInTail(u, '.', d);
      NotInTail(u, '/', d);
      assert |u[d + 1..]| == |u| - d - 1 && u[d] == '.';
      u[d + 1..]
    else
      ""
  }

  /**
   The extension is decided by the last path component alone: when that
   component holds a '.', the extension is what follows its last '.'; when it
   holds none, the extension is empty.
   */
  lemma ExtensionFollowsLastDot(u: Url)
    ensures var r := PathExtension(u); var last := LastPathComponent(u);
      '.' in last ==> |r| < |last| && u[|u| - |r| - 1] == '.'
    ensures '.' !in LastPathComponent(u) ==> PathExtension(u) == ""
  {
    var s := LastIndexOf(u, '/');
    var d := LastIndexOf(u, '.');
    assert LastPathComponent(u) == u[s + 1..];
    if d > s {
      assert u[s + 1..][d - s - 1] == '.';
    } else {
      NotInTail(u, '.', s);
    }
  }

  /** The test both pickers use: `url.pathExtension.lowercased() == "usdz"`. */
  predicate IsUsdz(u: Url)
  {
    Lower(PathExtension(u)) == UsdzExtension
  }

  /** A URL is a usdz file exactly when it ends in a dot followed by "usdz" in any
      mix of cases, with no '/' in between. */
  lemma UsdzIffSuffix(u: Url)
    ensures IsUsdz(u) <==>
      |u| >= 5 && u[|u| - 5] == '.' && Lower(u[|u| - 4..]) == UsdzExtension
  {
    if IsUsdz(u) {
      UsdzEndsInSuffix(u);
    }
    if |u| >= 5 && u[|u| - 5] == '.' && Lower(u[|u| - 4..]) == UsdzExtension {
      SuffixMakesUsdz(u);
    }
  }

  lemma UsdzEndsInSuffix(u: Url)
    requires IsUsdz(u)
    ensures |u| >= 5 && u[|u| - 5] == '.' && Lower(u[|u| - 4..]) == UsdzExtension
  {
    LowerKeepsLength(PathExtension(u));
    var e := PathExtension(u);
    assert u[|u| - 4..] == e;
  }

  lemma LowerKeepsLength(s: string)
    ensures |Lower(s)| == |s|
  {
  }

  lemma SuffixMakesUsdz(u: Url)
    requires |u| >= 5 && u[|u| - 5] == '.' && Lower(u[|u| - 4..]) == UsdzExtension
    ensures IsUsdz(u)
  {
    var tail := u[|u| - 4..];
    UsdzTailHasNoSeparator(tail);
    ExtensionOfDotTail(u, tail);
  }

  lemma UsdzTailHasNoSeparator(tail: string)
    requires Lower(tail) == UsdzExtension
    ensures '.' !in tail && '/' !in tail
  {
    forall k | 0 <= k < |tail| ensures tail[k] != '.' && tail[k] != '/' {
      assert Lower(tail)[k] == LowerChar(tail[k]);
    }
  }

  /** When `c` does not occur from `p` on, its last occurrence lies before `p`. */
  lemma LastIndexBefore(s: string, c: char, p: int)
    requires 0 <= p <= |s| && c !in s[p..]
    ensures LastIndexOf(s, c) < p
  {
    assert forall k :: p <= k < |s| ==> s[k] == s[p..][k - p];
  }

  /** A URL ending in '.' and a tail free of '.' and '/' has that tail as its extension. */
  lemma ExtensionOfDotTail(u: Url, tail: string)
    requires |u| > |tail| && u[|u| - |tail| - 1] == '.' && u[|u| - |tail|..] == tail
    requires '.' !in tail && '/' !in tail
    ensures PathExtension(u) == tail
  {
    LastIndexBefore(u, '/', |u| - |tail|);
    LastIndexBefore(u, '.', |u| - |tail|);
  }

  /** The test is case-insensitive: an all-capitals name is accepted. */
  lemma UpperCaseUsdzAccepted()
    ensures IsUsdz("MODEL.USDZ")
  {
    var u := "MODEL.USDZ";
    assert u[|u| - 4..] == "USDZ";
    assert Lower("USDZ") == "usdz";
    UsdzIffSuffix(u);
  }

  lemma MixedCaseUsdzAccepted()
    ensures IsUsdz("/Documents/Chair.UsDz")
  {
    var u := "/Documents/Chair.UsDz";
    assert u[|u| - 4..] == "UsDz";
    assert Lower("UsDz") == "usdz";
    UsdzIffSuffix(u);
  }

  /** A near miss, a bare name and a usdz-named directory are all rejected. */
  lemma NearMissRejected()
    ensures !IsUsdz("scene.usd")
  {
    ExtensionOfDotTail("scene.usd", "usd");
  }

  lemma BareNameRejected()
    ensures !IsUsdz("usdz")
  {
    UsdzIffSuffix("usdz");
  }

  lemma UsdzDirectoryRejected()
    ensures !IsUsdz("models.usdz/readme")
  {
  }

  /** Changing the case of the URL never changes the verdict of the usdz test. */
  lemma UsdzTestIgnoresCase(u: Url)
    ensures IsUsdz(Upper(u)) <==> IsUsdz(u)
    ensures IsUsdz(Lower(u)) <==> IsUsdz(u)
  {
    UsdzIffSuffix(u);
    UsdzIffSuffix(Upper(u));
    UsdzIffSuffix(Lower(u));
    if |u| >= 5 {
      CaseMapsKeepSuffix(u);
    } else {
      assert |Upper(u)| < 5 && |Lower(u)| < 5;
    }
  }

  lemma CaseMapsKeepSuffix(u: Url)
    requires |u| >= 5
    ensures Upper(u)[|u| - 5] == '.' <==> u[|u| - 5] == '.'
    ensures Lower(u)[|u| - 5] == '.' <==> u[|u| - 5] == '.'
    ensures Lower(Upper(u)[|u| - 4..]) == Lower(u[|u| - 4..])
    ensures Lower(Lower(u)[|u| - 4..]) == Lower(u[|u| - 4..])
  {
  }
}
