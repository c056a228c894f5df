/** Helpers the admin pages `ListedGems.jsx`, `UserManage.jsx` and `GemManage.jsx`
    each define for themselves: all three carry an identical `fixImageUrl`;
    `ListedGems.jsx` and `GemManage.jsx` carry the same listing-type badge and
    `formatDate` guard; only `ListedGems.jsx` shows the verified mark; and
    `ListedGems.jsx` and `UserManage.jsx` delete from their lists by id. */
module AdminCommon {
  import opened Wrappers
  import opened Js
  import opened Lists

  const PrivateHostPrefix := "http://192.168."
  const PortSuffix := ":8080"
  const LocalOrigin := "http://localhost:8080"

  /** The number of ASCII digits (what `\d` matches) in the run starting at `i`. */
  function DigitRun(s: string, i: nat): (n: nat)
    requires i <= |s|
    ensures i + n <= |s|
    ensures forall k :: i <= k < i + n ==> IsAsciiDigit(s[k])
    ensures i + n < |s| ==> !IsAsciiDigit(s[i + n])
    decreases |s| - i
  {
    if i < |s| && IsAsciiDigit(s[i]) then 1 + DigitRun(s, i + 1) else 0
  }

  /** A run of digits that ends before a non-digit is the whole run. */
  lemma {:induction false} DigitRunExact(s: string, i: nat, n: nat)
    requires i + n < |s|
    requires forall k :: i <= k < i + n ==> IsAsciiDigit(s[k])
    requires !IsAsciiDigit(s[i + n])
    ensures DigitRun(s, i) == n
    decreases n
  {
    if n > 0 {
      DigitRunExact(s, i + 1, n - 1);
    }
  }

  /** The text `lit` appears in `s` at index `i`. */
  predicate LiteralAt(s: string, i: nat, lit: string) {
    i + |lit| <= |s| && forall m :: 0 <= m < |lit| ==> s[i + m] == lit[m]
  }

  /** Every index from `i` up to `j` holds a digit, and there is at least one. */
  predicate DigitsBetween(s: string, i: nat, j: nat) {
    i < j <= |s| && forall m :: i <= m < j ==> IsAsciiDigit(s[m])
  }

  /** Where a match of `/http:\/\/192\.168\.\d+\.\d+:8080/` beginning at `p` ends, if
      one begins there. Each `\d+` must be followed by a non-digit (`.` or `:`), so
      only its longest run can take part in a match. */
  function MatchEnd(s: string, p: nat): (r: Option<nat>)
    requires p <= |s|
    ensures r.Some? ==> p < r.value <= |s|
  {
    var a := p + |PrivateHostPrefix|;
    if !LiteralAt(s, p, PrivateHostPrefix) then None
    else
      var b := a + DigitRun(s, a);
      if b == a || b == |s| || s[b] != '.' then None
      else
        var c := b + 1 + DigitRun(s, b + 1);
        if c == b + 1 || !LiteralAt(s, c, PortSuffix) then None
        else Some(c + |PortSuffix|)
  }

  /** `s[p..e]` is a word of the pattern: the prefix, digits, a dot, digits, the port. */
  ghost predicate PrivateHost(s: string, p: nat, e: nat) {
    exists k | p + |PrivateHostPrefix| < k < e - |PortSuffix| ::
      && LiteralAt(s, p, PrivateHostPrefix)
      && LiteralAt(s, e - |PortSuffix|, PortSuffix)
      && DigitsBetween(s, p + |PrivateHostPrefix|, k)
      && s[k] == '.'
      && DigitsBetween(s, k + 1, e - |PortSuffix|)
  }

  /** What `MatchEnd` finds is a word of the pattern. */
  lemma MatchEndSound(s: string, p: nat)
    requires p <= |s|
    ensures MatchEnd(s, p).Some? ==> PrivateHost(s, p, MatchEnd(s, p).value)
  {
    if MatchEnd(s, p).Some? {
      var e := MatchEnd(s, p).value;
      var a := p + |PrivateHostPrefix|;
      var b := a + DigitRun(s, a);
      var c := b + 1 + DigitRun(s, b + 1);
      assert DigitsBetween(s, a, b) && DigitsBetween(s, b + 1, c);
      assert e - |PortSuffix| == c;
    }
  }

  /** `MatchEnd` follows a prefix, a digit run ending at the dot at `b`, a digit run
      ending at `c` and the port. */
  lemma MatchEndAt(s: string, p: nat, b: nat, c: nat)
    requires LiteralAt(s, p, PrivateHostPrefix)
    requires p + |PrivateHostPrefix| < b && b + 1 < c && LiteralAt(s, c, PortSuffix)
    requires DigitRun(s, p + |PrivateHostPrefix|) == b - (p + |PrivateHostPrefix|)
    requires s[b] == '.' && DigitRun(s, b + 1) == c - (b + 1)
    ensures MatchEnd(s, p) == Some(c + |PortSuffix|)
  {
  }

  /** Every word of the pattern that starts at `p` is the one `MatchEnd` finds: the
      match at a position, if any, is unique. */
  lemma MatchEndComplete(s: string, p: nat, e: nat)
    requires p <= e <= |s| && PrivateHost(s, p, e)
    ensures MatchEnd(s, p) == Some(e)
  {
    var a := p + |PrivateHostPrefix|;
    var c := e - |PortSuffix|;
    var k :| a < k < c && LiteralAt(s, p, PrivateHostPrefix) && DigitsBetween(s, a, k) && s[k] == '.'
      && DigitsBetween(s, k + 1, c) && LiteralAt(s, c, PortSuffix);
    DigitRunExact(s, a, k - a);
    assert s[c + 0] == PortSuffix[0];
    DigitRunExact(s, k + 1, c - (k + 1));
    MatchEndAt(s, p, k, c);
  }

  /** No match begins at any index from `from` up to, not including, `to`. */
  predicate NoMatchIn(s: string, from: nat, to: nat)
    requires to <= |s| + 1
    decreases if from < to then to - from else 0
  {
    from >= to || (from <= |s| && MatchEnd(s, from).None? && NoMatchIn(s, from + 1, to))
  }

  lemma {:induction false} NoMatchInAt(s: string, from: nat, to: nat, q: nat)
    requires to <= |s| + 1 && NoMatchIn(s, from, to) && from <= q < to
    ensures MatchEnd(s, q).None?
    decreases q - from
  {
    if q > from {
      NoMatchInAt(s, from + 1, to, q);
    }
  }

  /** The leftmost match at or after `from`, as its start and end: a match begins
      there and none begins earlier. */
  function FirstMatch(s: string, from: nat): (r: Option<(nat, nat)>)
    requires from <= |s|
    ensures r.Some? ==> from <= r.value.0 <= |s| && MatchEnd(s, r.value.0) == Some(r.value.1)
    ensures r.Some? ==> NoMatchIn(s, from, r.value.0)
    ensures r.None? ==> NoMatchIn(s, from, |s| + 1)
    decreases |s| - from
  {
    match MatchEnd(s, from)
    case Some(e) => Some((from, e))
    case None => if from == |s| then None else FirstMatch(s, from + 1)
  }

  /** `s.replace(/http:\/\/192\.168\.\d+\.\d+:8080/, 'http://localhost:8080')`:
      without the `g` flag only the leftmost match is replaced. */
  function ReplacePrivateHost(s: string): string {
    match FirstMatch(s, 0)
    case None => s
    case Some((p, e)) => s[..p] + LocalOrigin + s[e..]
  }

  /** Against the pattern itself: with no word of the pattern anywhere the string is
      returned as it is. */
  lemma ReplaceWithoutMatch(s: string)
    requires forall p, e :: 0 <= p <= e <= |s| ==> !PrivateHost(s, p, e)
    ensures ReplacePrivateHost(s) == s
  {
    if FirstMatch(s, 0).Some? {
      var (p, e) := FirstMatch(s, 0).value;
      MatchEndSound(s, p);
    }
  }

  /** Against the pattern itself: when a word of the pattern occurs, the leftmost one
      is replaced by the local origin and everything before and after it, later
      words included, is kept. */
  lemma ReplaceLeftmostMatch(s: string, p0: nat, e0: nat)
    requires p0 <= e0 <= |s| && PrivateHost(s, p0, e0)
    ensures exists p, e ::
      && 0 <= p <= e <= |s| && PrivateHost(s, p, e)
      && ReplacePrivateHost(s) == s[..p] + LocalOrigin + s[e..]
      && forall q, d :: 0 <= q < p && q <= d <= |s| ==> !PrivateHost(s, q, d)
  {
    match FirstMatch(s, 0)
    case None =>
      MatchEndComplete(s, p0, e0);
      NoMatchInAt(s, 0, |s| + 1, p0);
    case Some((p, e)) =>
      MatchEndSound(s, p);
      NoneBefore(s, p);
      assert ReplacePrivateHost(s) == s[..p] + LocalOrigin + s[e..];
  }

  /** Before the first match found from the start, no word of the pattern begins. */
  lemma NoneBefore(s: string, p: nat)
    requires p <= |s| && NoMatchIn(s, 0, p)
    ensures forall q, d :: 0 <= q < p && q <= d <= |s| ==> !PrivateHost(s, q, d)
  {
    forall q, d | 0 <= q < p && q <= d <= |s| ensures !PrivateHost(s, q, d) {
      if PrivateHost(s, q, d) {
        MatchEndComplete(s, q, d);
        NoMatchInAt(s, 0, p, q);
      }
    }
  }

  /** `fixImageUrl(url)`: `null` for an absent or empty URL, otherwise the URL with
      its first private-network host rewritten to the local origin. */
  function FixImageUrl(url: Option<string>): (r: Option<string>)
    ensures r.None? <==> !Truthy(url)
    ensures r.Some? ==> r.value == ReplacePrivateHost(url.value)
  {
    if !Truthy(url) then None else Some(ReplacePrivateHost(url.value))
  }

  /** A stored image on a private address is served from the local origin. */
  lemma FixImageUrlExample(url: string)
    requires url == "http://192.168.1.20:8080/a.png"
    ensures FixImageUrl(Some(url)) == Some("http://localhost:8080/a.png")
  {
    assert LiteralAt(url, 0, PrivateHostPrefix);
    assert DigitsBetween(url, 15, 16) && url[16] == '.' && DigitsBetween(url, 17, 19);
    assert LiteralAt(url, 19, PortSuffix);
    assert PrivateHost(url, 0, 24);
    MatchEndComplete(url, 0, 24);
    assert FirstMatch(url, 0) == Some((0, 24));
    assert url[..0] + LocalOrigin + url[24..] == "http://localhost:8080/a.png";
  }

  const SaleBadge := "bg-blue-100 text-blue-700 border-blue-300"
  const OtherListingBadge := "bg-purple-100 text-purple-700 border-purple-300"

  /** `getListingTypeBadge`: blue for a sale, purple for every other listing type,
      absent or unknown ones included. */
  function ListingTypeBadge(listingType: Option<string>): (r: string)
    ensures r == SaleBadge <==> listingType == Some("SALE")
    ensures r == OtherListingBadge <==> listingType != Some("SALE")
  {
    if listingType == Some("SALE") then SaleBadge else OtherListingBadge
  }

  datatype Certificate = Certificate(id: int, verified: bool)

  datatype Gem = Gem(id: int, name: string, listingType: Option<string>, status: string,
                     certificates: Option<seq<Certificate>>)

  /** `certificates.some(cert => cert.verified)`. */
  function AnyVerified(certificates: seq<Certificate>): (b: bool)
    ensures b <==> exists i :: 0 <= i < |certificates| && certificates[i].verified
  {
    if certificates == [] then false
    else certificates[0].verified || AnyVerified(certificates[1..])
  }

  /** `gem.certificates && gem.certificates.some(cert => cert.verified)`: the gem has
      a certificate list and at least one certificate on it is verified. */
  predicate IsVerified(gem: Gem) {
    gem.certificates.Some? && AnyVerified(gem.certificates.value)
  }

  lemma IsVerifiedMeaning(gem: Gem)
    ensures IsVerified(gem) <==>
      gem.certificates.Some? && exists c :: c in gem.certificates.value && c.verified
  {
    if gem.certificates.Some? && exists c :: c in gem.certificates.value && c.verified {
      var c :| c in gem.certificates.value && c.verified;
      var i :| 0 <= i < |gem.certificates.value| && gem.certificates.value[i] == c;
    }
  }

  const NotAvailable := "N/A"

  /** The text of `formatDate`/`formatDateTime`: `N/A` for an absent or empty date,
      otherwise a locale rendering of it, which is not modelled. */
  datatype DateText = Missing | Localized(source: string) {
    function Shown(render: string -> string): string {
      match this
      case Missing => NotAvailable
      case Localized(d) => render(d)
    }
  }

  function FormatDate(date: Option<string>): (r: DateText)
    ensures r.Missing? <==> !Truthy(date)
    ensures r.Localized? ==> Some(r.source) == date
  {
    if !Truthy(date) then Missing else Localized(date.value)
  }

  /** `list.filter(item => item.id !== id)`: what a successful delete leaves. */
  function WithoutId<T>(list: seq<T>, idOf: T -> int, id: int): (r: seq<T>)
    ensures |r| <= |list|
    ensures forall i :: 0 <= i < |r| ==> r[i] in list && idOf(r[i]) != id
    ensures forall i :: 0 <= i < |list| && idOf(list[i]) != id ==> list[i] in r
  {
    Filter(list, item => idOf(item) != id)
  }

  /** Deleting the same id twice leaves what deleting it once left; deleting an id
      no item has leaves the list as it was; the survivors keep their order. */
  lemma WithoutIdLaws<T>(list: seq<T>, more: seq<T>, idOf: T -> int, id: int)
    ensures WithoutId(WithoutId(list, idOf, id), idOf, id) == WithoutId(list, idOf, id)
    ensures (forall i :: 0 <= i < |list| ==> idOf(list[i]) != id) ==> WithoutId(list, idOf, id) == list
    ensures WithoutId(list + more, idOf, id) == WithoutId(list, idOf, id) + WithoutId(more, idOf, id)
  {
    var keep := item => idOf(item) != id;
    FilterIdempotent(list, keep);
    if forall i :: 0 <= i < |list| ==> idOf(list[i]) != id {
      FilterKeepsAll(list, keep);
    }
    FilterConcat(list, more, keep);
  }
}
