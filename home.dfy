/** The home page of frontend/src/pages/Home.jsx: how a stored image url
    becomes an address the browser can load, and which listings the
    category strip shows. */
module HomePage {
  import opened Tables
  import opened Text
  import Properties
  import DetailsPage

  /** The stock photo shown for a listing without an image. */
  const DefaultImage: string := "https://images.unsplash.com/photo-1560448204-e02f11c3d0e2?auto=format&fit=crop&w=800&q=80"

  /** The backend address used when none is configured. */
  const FallbackBackend: string := "http://localhost:5000"

  /** At most this many listings on the home page. */
  const Shown: nat := 8

  /** `s.replace(pattern, replacement)` with a string pattern: only the
      first occurrence is replaced. */
  function ReplaceFirst(s: string, pattern: string, replacement: string): (r: string)
    requires |pattern| > 0
    ensures StartsWith(s, pattern) ==> r == replacement + s[|pattern|..]
    decreases |s|
  {
    if |s| < |pattern| then s
    else if s[..|pattern|] == pattern then replacement + s[|pattern|..]
    else [s[0]] + ReplaceFirst(s[1..], pattern, replacement)
  }

  /** A string without the pattern is left as it is. */
  lemma {:induction false} ReplaceFirstAbsent(s: string, pattern: string, replacement: string)
    requires |pattern| > 0
    requires !Contains(s, pattern)
    ensures ReplaceFirst(s, pattern, replacement) == s
    decreases |s|
  {
    if |s| >= |pattern| {
      assert !OccursAt(s, pattern, 0);
      forall i | 0 <= i <= |s[1..]| - |pattern| ensures !OccursAt(s[1..], pattern, i) {
        assert s[1..][i..i + |pattern|] == s[i + 1..i + 1 + |pattern|];
        assert !OccursAt(s, pattern, i + 1);
      }
      ReplaceFirstAbsent(s[1..], pattern, replacement);
      assert s == [s[0]] + s[1..];
    }
  }

  /** The backend address as written: the configured api url with its first
      "/api" removed, or the fallback when that is missing or empty. */
  function BackendUrl(apiUrl: Option<string>): (r: string)
    ensures apiUrl.None? ==> r == FallbackBackend
    ensures apiUrl.Some? && ReplaceFirst(apiUrl.value, "/api", "") != "" ==> r == ReplaceFirst(apiUrl.value, "/api", "")
    ensures apiUrl.Some? && ReplaceFirst(apiUrl.value, "/api", "") == "" ==> r == FallbackBackend
    ensures |r| > 0
  {
    var stripped := if apiUrl.Some? then ReplaceFirst(apiUrl.value, "/api", "") else "";
    if stripped == "" then FallbackBackend else stripped
  }

  /** getImageUrl: the stock photo for a missing or empty url, an absolute
      url unchanged, and anything else prefixed with the backend address. */
  function ImageUrl(url: Option<string>, apiUrl: Option<string>): (r: string)
    ensures url.None? || url == Some("") ==> r == DefaultImage
    ensures url.Some? && StartsWith(url.value, "http") ==> r == url.value
    ensures url.Some? && url.value != "" && !StartsWith(url.value, "http") ==>
      r == BackendUrl(apiUrl) + url.value
  {
    if url.None? || url.value == "" then DefaultImage
    else if StartsWith(url.value, "http") then url.value
    else BackendUrl(apiUrl) + url.value
  }

  /** Without a configured api url, the home page and the listing page
      resolve an uploaded image to the same address. */
  lemma UploadedImageResolvesAlike(image: Image)
    requires exists name :: image.imageUrl == Properties.UploadUrl(name)
    ensures ImageUrl(Some(image.imageUrl), None) == DetailsPage.Url(image)
  {
    var name :| image.imageUrl == Properties.UploadUrl(name);
    assert image.imageUrl[0] == '/';
    assert !StartsWith(image.imageUrl, "http");
  }

  /** The pattern after a prefix in which it does not start is what the
      first replacement hits. */
  lemma {:induction false} ReplaceFirstAfter(a: string, pattern: string, b: string, replacement: string)
    requires |pattern| > 0
    requires forall i :: 0 <= i < |a| ==> !OccursAt(a + pattern + b, pattern, i)
    ensures ReplaceFirst(a + pattern + b, pattern, replacement) == a + replacement + b
    decreases |a|
  {
    var s := a + pattern + b;
    if |a| == 0 {
      assert s == pattern + b;
      assert s[..|pattern|] == pattern;
    } else {
      var t := a[1..] + pattern + b;
      assert s[1..] == t;
      assert !OccursAt(s, pattern, 0);
      assert s[..|pattern|] == s[0..|pattern|];
      assert ReplaceFirst(s, pattern, replacement) == [s[0]] + ReplaceFirst(t, pattern, replacement);
      forall i | 0 <= i < |a| - 1 ensures !OccursAt(t, pattern, i) {
        OccursAtTail(s, pattern, i);
      }
      ReplaceFirstAfter(a[1..], pattern, b, replacement);
      assert a == [a[0]] + a[1..];
    }
  }

  /** Dropping the first character shifts every occurrence left by one. */
  lemma OccursAtTail(s: string, t: string, i: int)
    requires 0 <= i && i + 1 <= |s| - |t|
    ensures OccursAt(s[1..], t, i) == OccursAt(s, t, i + 1)
  {
    assert s[1..][i..i + |t|] == s[i + 1..i + 1 + |t|];
  }

  /** Finding, as written: an api host whose name begins with "api" loses
      the wrong "/api": the first one sits in "//api.", so the address
      becomes "https:/.io/api". */
  lemma ApiHostIsMangled()
    ensures BackendUrl(Some("https://api.io/api")) == "https:/.io/api"
    ensures BackendUrl(Some("https://api.io/api")) != "https://api.io"
  {
    var a := "https:/";
    var b := ".io/api";
    var p := "/api";
    var s := a + p + b;
    assert s == "https://api.io/api";
    forall i | 0 <= i < |a| ensures !OccursAt(s, p, i) {
      if i < 6 {
        assert s[i..i + |p|][0] == a[i] != '/';
      } else {
        assert s[i..i + |p|][1] == '/';
      }
    }
    ReplaceFirstAfter(a, p, b, "");
    assert a + "" + b == "https:/.io/api";
  }

  /** The evidently intended address: the configured api url without a
      trailing "/api", or the fallback when that is missing or empty. */
  function StripApiSuffix(apiUrl: Option<string>): (r: string)
    ensures apiUrl.Some? && |apiUrl.value| > 4 && apiUrl.value[|apiUrl.value| - 4..] == "/api" ==>
      r + "/api" == apiUrl.value
    ensures apiUrl.Some? && apiUrl.value != "" && !(|apiUrl.value| >= 4 && apiUrl.value[|apiUrl.value| - 4..] == "/api") ==>
      r == apiUrl.value
    ensures apiUrl.None? ==> r == FallbackBackend
    ensures apiUrl == Some("/api") || apiUrl == Some("") ==> r == FallbackBackend
    ensures |r| > 0
  {
    var stripped :=
      if apiUrl.None? then ""
      else if |apiUrl.value| >= 4 && apiUrl.value[|apiUrl.value| - 4..] == "/api" then apiUrl.value[..|apiUrl.value| - 4]
      else apiUrl.value;
    if stripped == "" then FallbackBackend else stripped
  }

  /** The corrected address keeps the api host. */
  lemma ApiHostIsKept()
    ensures StripApiSuffix(Some("https://api.io/api")) == "https://api.io"
  {
    var s := "https://api.io/api";
    assert s[|s| - 4..] == "/api";
    assert s[..|s| - 4] == "https://api.io";
  }

  /** Where "/api" occurs only as the suffix, the address as written is the
      corrected one. */
  lemma SuffixOnlyAgrees(a: string)
    requires forall i :: 0 <= i < |a| ==> !OccursAt(a + "/api", "/api", i)
    ensures BackendUrl(Some(a + "/api")) == StripApiSuffix(Some(a + "/api"))
  {
    var u := a + "/api";
    assert a + "/api" + "" == u;
    ReplaceFirstAfter(a, "/api", "", "");
    assert a + "" + "" == a;
    assert u[|u| - 4..] == "/api";
    assert u[..|u| - 4] == a;
  }

  /** A configured url without "/api" is kept, as written and corrected. */
  lemma PlainUrlAgrees(u: string)
    requires u != "" && !Contains(u, "/api")
    ensures BackendUrl(Some(u)) == u
    ensures StripApiSuffix(Some(u)) == u
  {
    ReplaceFirstAbsent(u, "/api", "");
    if |u| >= 4 {
      assert !OccursAt(u, "/api", |u| - 4);
    }
  }

  // ------------------------------------------------------- category strip

  /** Every second listing, starting with the first. */
  function EvenIndexed<T>(s: seq<T>): (r: seq<T>)
    ensures |r| == (|s| + 1) / 2
    ensures forall i :: 0 <= i < |r| ==> r[i] == s[2 * i]
  {
    seq((|s| + 1) / 2, i requires 0 <= i < (|s| + 1) / 2 => s[2 * i])
  }

  /** `slice(0, 8)`. */
  function Take<T>(s: seq<T>, n: nat): (r: seq<T>)
    ensures |r| == if |s| <= n then |s| else n
    ensures r == s[..|r|]
  {
    if |s| <= n then s else s[..n]
  }

  /** displayedProperties: at most eight listings, in catalogue order: a
      prefix for "all", the listings at positions 0, 2, 4, ... otherwise. */
  function Displayed<T>(ps: seq<T>, category: string): (r: seq<T>)
    ensures |r| <= Shown
    ensures category == "all" ==> |r| == if |ps| <= Shown then |ps| else Shown
    ensures category == "all" ==> r == ps[..|r|]
    ensures category != "all" ==> |r| == if (|ps| + 1) / 2 <= Shown then (|ps| + 1) / 2 else Shown
    ensures category != "all" ==> forall i :: 0 <= i < |r| ==> r[i] == ps[2 * i]
  {
    if category == "all" then Take(ps, Shown) else Take(EvenIndexed(ps), Shown)
  }
}
