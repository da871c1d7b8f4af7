/** The favicon pool: normalisation of a URL or bare host, the guard in front
    of every lookup, the memory cache, the on-disk copy named after the host's
    hash code, the nearest-size choice among the icons a page declares and
    the sample size used to decode them. */
module Favicons {
  import opened Strings

  /** A JVM `Int`. */
  newtype int32 = x: int | -0x8000_0000 <= x < 0x8000_0000

  const Int32Max: int32 := 0x7fff_ffff
  const Modulus: int := 0x1_0000_0000

  /** Side length, in pixels, the pool prefers for an icon. */
  const PreferredSideSize: int32 := 120

  /** The largest decoded side the pool aims for. */
  const MaxDecodedSide: int32 := 512

  /** A decoded image, identified by an opaque handle. */
  datatype Bitmap = Bitmap(handle: nat)

  /** An icon a page declares: its address and declared size. */
  datatype IconInfo = IconInfo(src: string, width: int32, height: int32)

  // ---------------------------------------------------------------------
  // Normalisation and the lookup guard
  // ---------------------------------------------------------------------

  /** The address the pool fetches for a URL or a bare host name: nothing for
      a blank input or one with a scheme other than http and https, the
      trimmed input when it already starts with one of those (in any case),
      and otherwise the trimmed input behind "https://". */
  function NormalizeUrlOrHost(s: string): (r: Option<string>)
    ensures r.Some? ==> StartsWithIgnoreCase(r.value, "http://") || StartsWithIgnoreCase(r.value, "https://")
    ensures r.Some? ==> EndsWith(r.value, Trim(s))
    ensures r.None? <==> IsBlank(Trim(s))
                         || (!StartsWithIgnoreCase(Trim(s), "http://") && !StartsWithIgnoreCase(Trim(s), "https://")
                             && Contains(Trim(s), "://"))
  {
    var t := Trim(s);
    if IsBlank(t) then None
    else if StartsWithIgnoreCase(t, "http://") || StartsWithIgnoreCase(t, "https://") then Some(t)
    else if Contains(t, "://") then None
    else
      assert ("https://" + t)[..8] == "https://";
      assert ("https://" + t)[|"https://" + t| - |t|..] == t;
      Some("https://" + t)
  }

  /** Normalising a normalised address gives it back. */
  lemma {:induction false} NormalizeIdempotent(s: string)
    requires NormalizeUrlOrHost(s).Some?
    ensures NormalizeUrlOrHost(NormalizeUrlOrHost(s).value) == NormalizeUrlOrHost(s)
  {
    var t := Trim(s);
    TrimIdempotent(s);
    if StartsWithIgnoreCase(t, "http://") || StartsWithIgnoreCase(t, "https://") {
      SchemedNormalizesToItself(s);
    } else {
      BareNormalizesBehindHttps(s);
      HttpsPrefixedIsNormal(t, "https://" + t);
    }
  }

  /** An input with an http or https prefix normalises to its trimmed self. */
  lemma SchemedNormalizesToItself(s: string)
    requires !IsBlank(Trim(s))
    requires StartsWithIgnoreCase(Trim(s), "http://") || StartsWithIgnoreCase(Trim(s), "https://")
    ensures NormalizeUrlOrHost(s) == Some(Trim(s))
  {
  }

  /** Any other normalisable input normalises to "https://" before it. */
  lemma BareNormalizesBehindHttps(s: string)
    requires NormalizeUrlOrHost(s).Some?
    requires !StartsWithIgnoreCase(Trim(s), "http://") && !StartsWithIgnoreCase(Trim(s), "https://")
    ensures NormalizeUrlOrHost(s) == Some("https://" + Trim(s))
    ensures Trim(s) != []
  {
  }

  /** A trimmed, non-blank address with an http or https prefix is its own
      normal form. */
  lemma NormalizeFixed(u: string)
    requires Trim(u) == u && u != []
    requires StartsWithIgnoreCase(u, "http://") || StartsWithIgnoreCase(u, "https://")
    ensures NormalizeUrlOrHost(u) == Some(u)
  {
    assert !IsWhitespace(u[0]);
  }

  /** A trimmed host behind "https://" is in normal form. */
  lemma HttpsPrefixedIsNormal(t: string, u: string)
    requires Trim(t) == t && t != []
    requires u == "https://" + t
    ensures NormalizeUrlOrHost(u) == Some(u)
  {
    assert u[|u| - 1] == t[|t| - 1];
    assert !IsWhitespace(u[0]);
    TrimKeeps(u);
    assert u[..8] == "https://";
    NormalizeFixed(u);
  }

  /** The normalised address and its host when a lookup goes ahead: the
      address must normalise and its host (as `hostOf` extracts it, empty
      when the address does not parse) must not be blank. */
  function LookupTarget(urlOrHost: string, hostOf: string -> string): (r: Option<(string, string)>)
    ensures r.Some? ==> NormalizeUrlOrHost(urlOrHost) == Some(r.value.0) && r.value.1 == hostOf(r.value.0)
    ensures r.Some? ==> !IsBlank(r.value.1)
    ensures r.None? ==> NormalizeUrlOrHost(urlOrHost).None? || IsBlank(hostOf(NormalizeUrlOrHost(urlOrHost).value))
  {
    match NormalizeUrlOrHost(urlOrHost)
    case None => None
    case Some(url) =>
      var host := hostOf(url);
      if IsBlank(host) then None else Some((url, host))
  }

  // ---------------------------------------------------------------------
  // 32-bit arithmetic
  // ---------------------------------------------------------------------

  /** Two's-complement wrap-around of a JVM `Int` result. */
  function Wrap32(x: int): (r: int32)
    ensures -0x8000_0000 <= x < 0x8000_0000 ==> r as int == x
  {
    (((x + 0x8000_0000) % Modulus) - 0x8000_0000) as int32
  }

  /** Adding whole multiples of 2^32 does not change the wrapped value. */
  lemma WrapPeriodic(x: int, k: int)
    ensures Wrap32(x + k * Modulus) == Wrap32(x)
  {
    var a := x + 0x8000_0000;
    var q := a / Modulus;
    var r := a % Modulus;
    assert a + k * Modulus == (q + k) * Modulus + r;
    ModUnique(a + k * Modulus, q + k, r);
  }

  lemma ModUnique(x: int, q: int, r: int)
    requires x == q * Modulus + r && 0 <= r < Modulus
    ensures x % Modulus == r
  {
  }

  /** The same wrap-around for a result at most one 2^32 away from the
      `Int` range, which is all a subtraction or addition of two `Int`s can
      produce. */
  function WrapOnce(x: int): (r: int32)
    requires -0x1_0000_0000 <= x < 0x1_0000_0000
    ensures r as int == x || r as int == x - Modulus || r as int == x + Modulus
  {
    if x >= 0x8000_0000 then (x - Modulus) as int32
    else if x < -0x8000_0000 then (x + Modulus) as int32
    else x as int32
  }

  /** `Math.abs` on an `Int`: the negation wraps for the smallest value. */
  function Abs32(x: int32): (r: int32)
    ensures x != -0x8000_0000 ==> r as int == if x < 0 then -x as int else x as int
    ensures x == -0x8000_0000 ==> r == x
  {
    if x < 0 then WrapOnce(-(x as int)) else x
  }

  // ---------------------------------------------------------------------
  // Nearest-size icon
  // ---------------------------------------------------------------------

  /** The distance the chooser computes for one icon:
      `abs(width - w) + abs(height - h)` in `Int` arithmetic. */
  function Diff(icon: IconInfo, w: int32, h: int32): int32 {
    WrapOnce(Abs32(WrapOnce(icon.width as int - w as int)) as int + Abs32(WrapOnce(icon.height as int - h as int)) as int)
  }

  /** The distance of every icon, in list order. */
  function Distances(icons: seq<IconInfo>, w: int32, h: int32): (ds: seq<int32>)
    ensures |ds| == |icons| && forall i :: 0 <= i < |icons| ==> ds[i] == Diff(icons[i], w, h)
  {
    seq(|icons|, i requires 0 <= i < |icons| => Diff(icons[i], w, h))
  }

  /** Index of the distance the chooser keeps, or -1: a distance replaces the
      current choice only when strictly smaller, starting from
      `Int.MAX_VALUE`, so the first of equal distances wins and a distance of
      `Int.MAX_VALUE` is never chosen. */
  function NearestIndex(ds: seq<int32>): (k: int)
    ensures -1 <= k < |ds|
    ensures k == -1 <==> forall i :: 0 <= i < |ds| ==> ds[i] == Int32Max
    ensures k >= 0 ==> forall i :: 0 <= i < |ds| ==> ds[k] <= ds[i]
    ensures k >= 0 ==> forall i :: 0 <= i < k ==> ds[k] < ds[i]
    decreases |ds|
  {
    if ds == [] then -1
    else
      var n := |ds| - 1;
      var p := NearestIndex(ds[..n]);
      assert forall i :: 0 <= i < n ==> ds[..n][i] == ds[i];
      var best := if p == -1 then Int32Max else ds[p];
      if ds[n] < best then n else p
  }

  lemma NearestStep(ds: seq<int32>, i: nat)
    requires i < |ds|
    ensures var p := NearestIndex(ds[..i]);
      NearestIndex(ds[..i + 1]) == if ds[i] < (if p == -1 then Int32Max else ds[p]) then i else p
  {
    assert ds[..i + 1][..i] == ds[..i];
  }

  /** `chooseNearestSizeIcon`: one pass keeping the nearest icon so far. */
  method ChooseNearestSizeIcon(icons: seq<IconInfo>, w: int32, h: int32) returns (nearest: Option<IconInfo>)
    ensures var k := NearestIndex(Distances(icons, w, h)); nearest == if k == -1 then None else Some(icons[k])
  {
    nearest := None;
    var nearestDiff := Int32Max;
    ghost var ds := Distances(icons, w, h);
    ghost var k := -1;
    for i := 0 to |icons|
      invariant k == NearestIndex(ds[..i])
      invariant nearest == if k == -1 then None else Some(icons[k])
      invariant nearestDiff == if k == -1 then Int32Max else ds[k]
    {
      var diff := Diff(icons[i], w, h);
      NearestStep(ds, i);
      if diff < nearestDiff {
        nearestDiff := diff;
        nearest := Some(icons[i]);
        k := i;
      }
    }
    assert ds[..|icons|] == ds;
  }

  /** Whether every side involved is a size no larger than 2^29 pixels. */
  predicate SmallSizes(icons: seq<IconInfo>, w: int32, h: int32) {
    0 <= w < 0x2000_0000 && 0 <= h < 0x2000_0000
    && forall i :: 0 <= i < |icons| ==> 0 <= icons[i].width < 0x2000_0000 && 0 <= icons[i].height < 0x2000_0000
  }

  function Manhattan(icon: IconInfo, w: int32, h: int32): int {
    (if icon.width >= w then icon.width as int - w as int else w as int - icon.width as int)
    + (if icon.height >= h then icon.height as int - h as int else h as int - icon.height as int)
  }

  /** For realistic sizes nothing wraps: a non-empty list always yields an
      icon, and it minimises the Manhattan distance to the wanted size, the
      first such icon winning. */
  lemma NearestMinimisesManhattan(icons: seq<IconInfo>, w: int32, h: int32)
    requires SmallSizes(icons, w, h) && icons != []
    ensures var k := NearestIndex(Distances(icons, w, h));
      0 <= k < |icons|
      && (forall i :: 0 <= i < |icons| ==> Manhattan(icons[k], w, h) <= Manhattan(icons[i], w, h))
      && (forall i :: 0 <= i < k ==> Manhattan(icons[k], w, h) < Manhattan(icons[i], w, h))
  {
    forall i | 0 <= i < |icons|
      ensures Diff(icons[i], w, h) as int == Manhattan(icons[i], w, h)
    {
    }
    assert Diff(icons[0], w, h) != Int32Max;
  }

  /** The icon `get` downloads: the nearest one, or else the first. For
      realistic sizes it is an icon of least Manhattan distance to the
      preferred size. */
  function ChosenIcon(icons: seq<IconInfo>): (r: Option<IconInfo>)
    ensures r.Some? <==> icons != []
    ensures r.Some? ==> r.value in icons
    ensures var k := NearestIndex(Distances(icons, PreferredSideSize, PreferredSideSize));
            && (k >= 0 ==> r == Some(icons[k]))
            && (k == -1 && icons != [] ==> r == Some(icons[0]))
    ensures SmallSizes(icons, PreferredSideSize, PreferredSideSize) && icons != [] ==>
              forall i :: 0 <= i < |icons| ==>
                Manhattan(r.value, PreferredSideSize, PreferredSideSize)
                <= Manhattan(icons[i], PreferredSideSize, PreferredSideSize)
  {
    var k := NearestIndex(Distances(icons, PreferredSideSize, PreferredSideSize));
    var r := if k >= 0 then Some(icons[k]) else if icons != [] then Some(icons[0]) else None;
    if SmallSizes(icons, PreferredSideSize, PreferredSideSize) && icons != [] then
      NearestMinimisesManhattan(icons, PreferredSideSize, PreferredSideSize); r
    else r
  }

  // ---------------------------------------------------------------------
  // Decoding and the stored file
  // ---------------------------------------------------------------------

  function AtLeast(x: int32, m: int32): int32 {
    if x < m then m else x
  }

  /** The power the decoder scales down by, from the bounds it read first:
      the larger of width/512 and height/512 with both sides taken as at
      least 1, and never below 1. */
  function SampleSize(outWidth: int32, outHeight: int32): (scale: int32)
    ensures scale >= 1
    ensures var w := AtLeast(outWidth, 1); var h := AtLeast(outHeight, 1);
      scale >= w / MaxDecodedSide && scale >= h / MaxDecodedSide
      && (scale == 1 || scale == w / MaxDecodedSide || scale == h / MaxDecodedSide)
  {
    var w := AtLeast(outWidth, 1);
    var h := AtLeast(outHeight, 1);
    AtLeast(AtLeast(w / MaxDecodedSide, h / MaxDecodedSide), 1)
  }

  /** An image no side of which reaches 1024 pixels is decoded at full size,
      and a larger one always has a side of at least 512 pixels left. */
  lemma SampleSizeBounds(outWidth: int32, outHeight: int32)
    ensures outWidth < 1024 && outHeight < 1024 ==> SampleSize(outWidth, outHeight) == 1
    ensures var s := SampleSize(outWidth, outHeight);
      s > 1 ==> (outWidth as int) / (s as int) >= 512 || (outHeight as int) / (s as int) >= 512
  {
    var s := SampleSize(outWidth, outHeight);
    if s > 1 {
      var w := AtLeast(outWidth, 1);
      var h := AtLeast(outHeight, 1);
      if s == w / MaxDecodedSide {
        DivBound(w as int, s as int);
      } else {
        DivBound(h as int, s as int);
      }
    }
  }

  lemma DivBound(x: int, s: int)
    requires 0 < s && s == x / 512
    ensures x / s >= 512
  {
    assert x >= s * 512;
  }

  /** `String.hashCode`: `h = 31 * h + c` over the characters, in `Int`
      arithmetic. */
  function HashCode(s: string): int32
    decreases |s|
  {
    if s == [] then 0 else Wrap32(31 * HashCode(s[..|s| - 1]) as int + s[|s| - 1] as int)
  }

  function Pow31(n: nat): int {
    if n == 0 then 1 else 31 * Pow31(n - 1)
  }

  /** The polynomial `s[0]*31^(n-1) + ... + s[n-1]` without wrap-around. */
  function Polynomial(s: string): int
    decreases |s|
  {
    if s == [] then 0 else s[0] as int * Pow31(|s| - 1) + Polynomial(s[1..])
  }

  lemma {:induction false} PolynomialSnoc(s: string, c: char)
    ensures Polynomial(s + [c]) == 31 * Polynomial(s) + c as int
    decreases |s|
  {
    if s != [] {
      assert (s + [c])[1..] == s[1..] + [c];
      PolynomialSnoc(s[1..], c);
      calc {
        Polynomial(s + [c]);
        s[0] as int * Pow31(|s|) + Polynomial(s[1..] + [c]);
        s[0] as int * (31 * Pow31(|s| - 1)) + 31 * Polynomial(s[1..]) + c as int;
        { assert s[0] as int * (31 * Pow31(|s| - 1)) == 31 * (s[0] as int * Pow31(|s| - 1)); }
        31 * Polynomial(s) + c as int;
      }
    } else {
      assert s + [c] == [c];
    }
  }

  /** The hash code is the character polynomial in base 31, reduced to a
      32-bit two's-complement value. */
  lemma {:induction false} HashCodeIsPolynomial(s: string)
    ensures HashCode(s) == Wrap32(Polynomial(s))
    decreases |s|
  {
    if s != [] {
      var init := s[..|s| - 1];
      var c := s[|s| - 1];
      HashCodeIsPolynomial(init);
      var p := Polynomial(init);
      var x := p + 0x8000_0000;
      var k := -(x / Modulus);
      assert HashCode(init) as int == p + k * Modulus;
      WrapPeriodic(31 * p + c as int, 31 * k);
      assert 31 * HashCode(init) as int + c as int == 31 * p + c as int + (31 * k) * Modulus;
      assert init + [c] == s;
      PolynomialSnoc(init, c);
    }
  }

  /** The name the icon of `host` is stored under: the decimal hash code of
      the host, then ".png". */
  function FaviconFileName(host: string): (r: string)
    ensures |r| > 4 && r[|r| - 4..] == ".png"
    ensures ParseInt(r[..|r| - 4]) == HashCode(host) as int
  {
    var d := IntToString(HashCode(host) as int);
    var r := d + ".png";
    assert r[..|r| - 4] == d;
    r
  }

  /** Two hosts share a favicon file exactly when their hash codes collide,
      so one host's icon can overwrite another's. */
  lemma {:induction false} FaviconFileNamesCollide(h1: string, h2: string)
    ensures FaviconFileName(h1) == FaviconFileName(h2) <==> HashCode(h1) == HashCode(h2)
  {
  }

  // ---------------------------------------------------------------------
  // The pool
  // ---------------------------------------------------------------------

  /** The icon stored for a host: its host record names a file, and that
      file exists in the favicon directory. */
  function DiskIcon(hostFavicons: map<string, string>, files: map<string, Bitmap>, host: string): (r: Option<Bitmap>)
    ensures r.Some? <==> host in hostFavicons && hostFavicons[host] in files
  {
    if host in hostFavicons && hostFavicons[host] in files then Some(files[hostFavicons[host]]) else None
  }

  class FaviconsPool {
    /** Memory cache keyed by host. */
    var cache: map<string, Bitmap>
    /** Favicon file name recorded in each host's configuration. */
    var hostFavicons: map<string, string>
    /** The favicon directory: file name to image. */
    var files: map<string, Bitmap>
    /** Addresses handed to the icon extractor, in order. */
    var fetches: seq<string>

    constructor (hostFavicons: map<string, string>, files: map<string, Bitmap>)
      ensures this.hostFavicons == hostFavicons && this.files == files
      ensures cache == map[] && fetches == []
    {
      this.hostFavicons := hostFavicons;
      this.files := files;
      cache := map[];
      fetches := [];
    }

    /** The network path of `get` for a host neither cached nor stored:
        fetch the page's icons, download the chosen one and, when that
        succeeds, cache it and store it under the host's file name. */
    method FetchFromNetwork(url: string, host: string,
                            extract: string -> seq<IconInfo>, download: IconInfo -> Option<Bitmap>)
      returns (r: Option<Bitmap>)
      modifies this
      ensures fetches == old(fetches) + [url]
      ensures r == match ChosenIcon(extract(url)) case None => None case Some(icon) => download(icon)
      ensures r.Some? ==> cache == old(cache)[host := r.value]
                          && hostFavicons == old(hostFavicons)[host := FaviconFileName(host)]
                          && files == old(files)[FaviconFileName(host) := r.value]
      ensures r.None? ==> cache == old(cache) && hostFavicons == old(hostFavicons) && files == old(files)
    {
      fetches := fetches + [url];
      var icons := extract(url);
      var chosen := ChooseNearestSizeIcon(icons, PreferredSideSize, PreferredSideSize);
      if chosen.None? && icons != [] {
        chosen := Some(icons[0]);
      }
      assert chosen == ChosenIcon(icons);
      r := if chosen.Some? then download(chosen.value) else None;
      if r.Some? {
        cache := cache[host := r.value];
        var name := FaviconFileName(host);
        files := files[name := r.value];
        hostFavicons := hostFavicons[host := name];
      }
    }

    /** `get` for an address whose host passed the guard: the cache, then
        the stored file, then the network. */
    method GetForHost(url: string, host: string,
                      extract: string -> seq<IconInfo>, download: IconInfo -> Option<Bitmap>)
      returns (r: Option<Bitmap>)
      modifies this
      ensures host in old(cache) ==> r == Some(old(cache)[host]) && unchanged(this)
      ensures host !in old(cache) && DiskIcon(old(hostFavicons), old(files), host).Some? ==>
        r == DiskIcon(old(hostFavicons), old(files), host) && cache == old(cache)[host := r.value]
        && hostFavicons == old(hostFavicons) && files == old(files) && fetches == old(fetches)
      ensures host !in old(cache) && DiskIcon(old(hostFavicons), old(files), host).None? ==>
        fetches == old(fetches) + [url]
        && r == (match ChosenIcon(extract(url)) case None => None case Some(icon) => download(icon))
        && (r.Some? ==> cache == old(cache)[host := r.value]
                        && hostFavicons == old(hostFavicons)[host := FaviconFileName(host)]
                        && files == old(files)[FaviconFileName(host) := r.value]
                        && DiskIcon(hostFavicons, files, host) == r)
        && (r.None? ==> cache == old(cache) && hostFavicons == old(hostFavicons) && files == old(files))
    {
      if host in cache {
        return Some(cache[host]);
      }
      var stored := DiskIcon(hostFavicons, files, host);
      if stored.Some? {
        cache := cache[host := stored.value];
        return stored;
      }
      r := FetchFromNetwork(url, host, extract, download);
    }

    /** `get`: nothing, and no change, unless the address normalises and has
        a non-blank host (`hostOf` is the URL parser's host, empty on
        failure); otherwise the lookup for that host. `extract` gives the
        icons a page declares (empty on failure) and `download` the decoded
        image (nothing on failure). */
    method Get(urlOrHost: string, hostOf: string -> string,
               extract: string -> seq<IconInfo>, download: IconInfo -> Option<Bitmap>)
      returns (r: Option<Bitmap>)
      modifies this
      ensures var t := LookupTarget(urlOrHost, hostOf);
        t.None? ==> r == None && unchanged(this)
      ensures var t := LookupTarget(urlOrHost, hostOf);
        t.Some? && t.value.1 in old(cache) ==> r == Some(old(cache)[t.value.1]) && unchanged(this)
      ensures var t := LookupTarget(urlOrHost, hostOf);
        t.Some? && t.value.1 !in old(cache) && DiskIcon(old(hostFavicons), old(files), t.value.1).Some? ==>
          r == DiskIcon(old(hostFavicons), old(files), t.value.1) && cache == old(cache)[t.value.1 := r.value]
          && hostFavicons == old(hostFavicons) && files == old(files) && fetches == old(fetches)
      ensures var t := LookupTarget(urlOrHost, hostOf);
        t.Some? && t.value.1 !in old(cache) && DiskIcon(old(hostFavicons), old(files), t.value.1).None? ==>
          fetches == old(fetches) + [t.value.0]
          && r == (match ChosenIcon(extract(t.value.0)) case None => None case Some(icon) => download(icon))
          && (r.Some? ==> cache == old(cache)[t.value.1 := r.value]
                          && hostFavicons == old(hostFavicons)[t.value.1 := FaviconFileName(t.value.1)]
                          && files == old(files)[FaviconFileName(t.value.1) := r.value]
                          && DiskIcon(hostFavicons, files, t.value.1) == r)
          && (r.None? ==> cache == old(cache) && hostFavicons == old(hostFavicons) && files == old(files))
    {
      var target := LookupTarget(urlOrHost, hostOf);
      if target.None? {
        return None;
      }
      r := GetForHost(target.value.0, target.value.1, extract, download);
    }

    /** Clearing evicts the memory cache only. */
    method Clear()
      modifies this
      ensures cache == map[]
      ensures hostFavicons == old(hostFavicons) && files == old(files) && fetches == old(fetches)
    {
      cache := map[];
    }
  }
}
