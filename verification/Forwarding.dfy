/** The caller's address from `X-Forwarded-For` (`app/http/net.py`). Empty list elements are ignored, as in
    section 5.6.1.2 of RFC 9110. */
module Forwarding {
  import opened Types

  const UNKNOWN_CLIENT := "unknown"

  /** The characters Python's `str.strip` removes. */
  predicate IsSpace(c: char) {
    var n := c as int;
    || 0x09 <= n <= 0x0d || 0x1c <= n <= 0x20 || n == 0x85 || n == 0xa0 || n == 0x1680
    || 0x2000 <= n <= 0x200a || n == 0x2028 || n == 0x2029 || n == 0x202f || n == 0x205f || n == 0x3000
  }

  function StripLeft(s: string): string {
    if s != [] && IsSpace(s[0]) then StripLeft(s[1..]) else s
  }

  function StripRight(s: string): string {
    if s != [] && IsSpace(s[|s| - 1]) then StripRight(s[..|s| - 1]) else s
  }

  function Strip(s: string): string {
    StripRight(StripLeft(s))
  }

  /** `s.split(",")`, never empty. */
  function Split(s: string): (parts: seq<string>)
    ensures |parts| >= 1
  {
    if s == [] then [""]
    else if s[0] == ',' then [""] + Split(s[1..])
    else
      var rest := Split(s[1..]);
      [[s[0]] + rest[0]] + rest[1..]
  }

  /** The parts stripped, without those that are then empty. */
  function Entries(parts: seq<string>): seq<string> {
    if parts == [] then []
    else (if Strip(parts[0]) != "" then [Strip(parts[0])] else []) + Entries(parts[1..])
  }

  function Chain(header: Option<string>): seq<string> {
    Entries(Split(if header.Some? then header.value else ""))
  }

  /** `resolve_client_ip`. */
  function Resolve(header: Option<string>, peer: Option<string>, hops: int): string {
    if hops > 0 && |Chain(header)| >= hops then Chain(header)[|Chain(header)| - hops]
    else if peer.Some? then peer.value
    else UNKNOWN_CLIENT
  }

  // ---- what proxies write --------------------------------------------------------------------------

  /** A comma-free, non-blank text, possibly padded: what a proxy appends after its comma. */
  predicate IsAddress(s: string) {
    ',' !in s && !AllSpaces(s)
  }

  predicate AllSpaces(s: string) {
    forall i :: 0 <= i < |s| ==> IsSpace(s[i])
  }

  /** Non-blank, without commas, and with no space at either end. */
  predicate Clean(s: string) {
    s != "" && ',' !in s && !IsSpace(s[0]) && !IsSpace(s[|s| - 1])
  }

  /** An address as a proxy writes it, with any white space around it. */
  datatype Padded = Padded(before: string, address: string, after: string) {
    predicate Valid() {
      AllSpaces(before) && Clean(address) && AllSpaces(after)
    }

    function Text(): string {
      before + address + after
    }
  }

  function Texts(entries: seq<Padded>): (r: seq<string>)
    ensures |r| == |entries| && forall i :: 0 <= i < |r| ==> r[i] == entries[i].Text()
  {
    seq(|entries|, i requires 0 <= i < |entries| => entries[i].Text())
  }

  function Append(header: Option<string>, address: string): Option<string> {
    if header.None? then Some(address) else Some(header.value + "," + address)
  }

  /** The header after each proxy in turn, outermost first, has appended the address it saw. */
  function Forwarded(caller: Option<string>, addresses: seq<string>): Option<string> {
    if addresses == [] then caller
    else Append(Forwarded(caller, addresses[..|addresses| - 1]), addresses[|addresses| - 1])
  }

  function Stripped(addresses: seq<string>): (r: seq<string>)
    ensures |r| == |addresses| && forall i :: 0 <= i < |r| ==> r[i] == Strip(addresses[i])
  {
    seq(|addresses|, i requires 0 <= i < |addresses| => Strip(addresses[i]))
  }

  // ---- stripping -----------------------------------------------------------------------------------

  /** Python's white space, character by character. */
  lemma SpacesAre(c: char)
    ensures IsSpace(c) <==>
            c in {' ', '\t', '\n', '\r', '\U{0b}', '\U{0c}', '\U{1c}', '\U{1d}', '\U{1e}', '\U{1f}', '\U{85}', '\U{a0}',
                  '\U{1680}', '\U{2000}', '\U{2001}', '\U{2002}', '\U{2003}', '\U{2004}', '\U{2005}', '\U{2006}',
                  '\U{2007}', '\U{2008}', '\U{2009}', '\U{200a}', '\U{2028}', '\U{2029}', '\U{202f}', '\U{205f}',
                  '\U{3000}'}
  {
  }

  lemma {:induction false} StripLeftPadded(pad: string, s: string)
    requires AllSpaces(pad) && (s != "" ==> !IsSpace(s[0]))
    ensures StripLeft(pad + s) == s
  {
    if pad == "" {
      assert pad + s == s;
    } else {
      assert (pad + s)[1..] == pad[1..] + s;
      StripLeftPadded(pad[1..], s);
    }
  }

  lemma {:induction false} StripRightPadded(s: string, pad: string)
    requires AllSpaces(pad) && (s != "" ==> !IsSpace(s[|s| - 1]))
    ensures StripRight(s + pad) == s
  {
    if pad == "" {
      assert s + pad == s;
    } else {
      assert (s + pad)[..|s + pad| - 1] == s + pad[..|pad| - 1];
      StripRightPadded(s, pad[..|pad| - 1]);
    }
  }

  /** Stripping takes away exactly the white space around a text that has none at its ends. */
  lemma StripPadded(before: string, s: string, after: string)
    requires AllSpaces(before) && AllSpaces(after)
    requires s != "" && !IsSpace(s[0]) && !IsSpace(s[|s| - 1])
    ensures Strip(before + s + after) == s
  {
    assert before + s + after == before + (s + after);
    StripLeftPadded(before, s + after);
    StripRightPadded(s, after);
  }

  /** Exactly a text of white space alone strips to nothing. */
  lemma StripBlank(s: string)
    ensures Strip(s) == "" <==> AllSpaces(s)
  {
    if AllSpaces(s) {
      StripLeftPadded(s, "");
      assert s + "" == s;
    } else {
      var _, _, _ := SplitPadding(s);
    }
  }

  lemma FirstOther(s: string) returns (i: nat)
    requires !AllSpaces(s)
    ensures i < |s| && AllSpaces(s[..i]) && !IsSpace(s[i])
  {
    var m :| 0 <= m < |s| && !IsSpace(s[m]);
    i := 0;
    while IsSpace(s[i])
      invariant i <= m && forall j :: 0 <= j < i ==> IsSpace(s[j])
      decreases m - i
    {
      i := i + 1;
    }
  }

  lemma LastOther(s: string, i: nat) returns (k: nat)
    requires i < |s| && !IsSpace(s[i])
    ensures i < k <= |s| && AllSpaces(s[k..]) && !IsSpace(s[k - 1])
  {
    k := |s|;
    while IsSpace(s[k - 1])
      invariant i < k <= |s| && forall j :: k <= j < |s| ==> IsSpace(s[j])
      decreases k
    {
      k := k - 1;
    }
  }

  /** Any other is such a text with white space around it, so stripping is determined for every text. */
  lemma SplitPadding(s: string) returns (before: string, core: string, after: string)
    requires !AllSpaces(s)
    ensures AllSpaces(before) && AllSpaces(after) && s == before + core + after
    ensures core != "" && !IsSpace(core[0]) && !IsSpace(core[|core| - 1]) && Strip(s) == core
  {
    var i := FirstOther(s);
    var k := LastOther(s, i);
    before, core, after := s[..i], s[i..k], s[k..];
    assert s == before + core + after;
    StripPadded(before, core, after);
  }

  // ---- split over concatenation --------------------------------------------------------------------

  lemma {:induction false} SplitOverComma(a: string, b: string)
    ensures Split(a + "," + b) == Split(a) + Split(b)
  {
    if a == [] {
      assert (a + "," + b)[1..] == b;
    } else {
      assert (a + "," + b)[1..] == a[1..] + "," + b;
      SplitOverComma(a[1..], b);
    }
  }

  lemma {:induction false} SplitWithoutComma(a: string)
    requires ',' !in a
    ensures Split(a) == [a]
  {
    if a != [] {
      SplitWithoutComma(a[1..]);
      assert [a[0]] + a[1..] == a;
    }
  }

  lemma {:induction false} EntriesOverConcat(a: seq<string>, b: seq<string>)
    ensures Entries(a + b) == Entries(a) + Entries(b)
  {
    if a == [] {
      assert a + b == b;
    } else {
      assert (a + b)[1..] == a[1..] + b;
      EntriesOverConcat(a[1..], b);
    }
  }

  lemma NoHeaderNoChain()
    ensures Chain(None) == []
  {
    assert Split("") == [""] && Strip("") == "";
    assert Entries([""]) == [] + Entries([""][1..]);
  }

  /** One piece of a header is an entry unless it is blank. */
  lemma EntryOfOne(part: string)
    ensures Entries([part]) == if AllSpaces(part) then [] else [Strip(part)]
  {
    StripBlank(part);
    assert Entries([part][1..]) == [];
  }

  /** An empty list element is ignored. */
  lemma BlankIsIgnored(header: Option<string>, blank: string)
    requires ',' !in blank && AllSpaces(blank)
    ensures Chain(Append(header, blank)) == Chain(header)
  {
    SplitWithoutComma(blank);
    EntryOfOne(blank);
    if header.Some? {
      SplitOverComma(header.value, blank);
      EntriesOverConcat(Split(header.value), [blank]);
    } else {
      NoHeaderNoChain();
    }
  }

  lemma AppendExtendsChain(header: Option<string>, address: string)
    requires IsAddress(address)
    ensures Chain(Append(header, address)) == Chain(header) + [Strip(address)]
  {
    SplitWithoutComma(address);
    EntryOfOne(address);
    if header.Some? {
      SplitOverComma(header.value, address);
      EntriesOverConcat(Split(header.value), [address]);
    } else {
      NoHeaderNoChain();
    }
  }

  lemma StrippedAppend(front: seq<string>, last: string)
    ensures Stripped(front + [last]) == Stripped(front) + [Strip(last)]
  {
  }

  lemma OneMoreProxy(header: Option<string>, own: seq<string>, front: seq<string>, last: string)
    requires IsAddress(last) && Chain(header) == own + Stripped(front)
    ensures Chain(Append(header, last)) == own + Stripped(front + [last])
  {
    AppendExtendsChain(header, last);
    StrippedAppend(front, last);
    assert own + Stripped(front) + [Strip(last)] == own + (Stripped(front) + [Strip(last)]);
  }

  lemma {:induction false} ForwardedChain(caller: Option<string>, addresses: seq<string>)
    requires forall a :: a in addresses ==> IsAddress(a)
    ensures Chain(Forwarded(caller, addresses)) == Chain(caller) + Stripped(addresses)
  {
    if addresses == [] {
      assert Chain(caller) + Stripped([]) == Chain(caller);
    } else {
      var front, last := addresses[..|addresses| - 1], addresses[|addresses| - 1];
      ForwardedChain(caller, front);
      OneMoreProxy(Forwarded(caller, front), Chain(caller), front, last);
      assert addresses == front + [last];
    }
  }

  // ---- the main results ----------------------------------------------------------------------------

  lemma ResolvesPastCaller(
    header: Option<string>, own: seq<string>, trusted: seq<string>, peer: Option<string>, hops: int)
    requires Chain(header) == own + trusted && 0 < hops <= |trusted|
    ensures Resolve(header, peer, hops) == trusted[|trusted| - hops]
  {
  }

  lemma ResolvesToTrustedText(caller: Option<string>, addresses: seq<string>, peer: Option<string>, hops: int)
    requires forall a :: a in addresses ==> IsAddress(a)
    requires 0 < hops <= |addresses|
    ensures Resolve(Forwarded(caller, addresses), peer, hops) == Strip(addresses[|addresses| - hops])
  {
    ForwardedChain(caller, addresses);
    ResolvesPastCaller(Forwarded(caller, addresses), Chain(caller), Stripped(addresses), peer, hops);
  }

  /** Behind k proxies, each appending the address it saw with any white space around it, any number of trusted
      hops from 1 to k names what that proxy saw, free of the white space, whatever the caller wrote; with exactly k
      it is what the outermost proxy saw. */
  lemma ResolvesToTrustedProxy(caller: Option<string>, entries: seq<Padded>, peer: Option<string>, hops: int)
    requires forall e :: e in entries ==> e.Valid()
    requires 0 < hops <= |entries|
    ensures Resolve(Forwarded(caller, Texts(entries)), peer, hops) == entries[|entries| - hops].address
    ensures hops == |entries| ==> Resolve(Forwarded(caller, Texts(entries)), peer, hops) == entries[0].address
  {
    var texts := Texts(entries);
    forall a | a in texts
      ensures IsAddress(a)
    {
      var i :| 0 <= i < |texts| && texts[i] == a;
      PaddedIsAddress(entries[i]);
    }
    ResolvesToTrustedText(caller, texts, peer, hops);
    PaddedIsAddress(entries[|entries| - hops]);
  }

  lemma PaddedIsAddress(e: Padded)
    requires e.Valid()
    ensures IsAddress(e.Text()) && Strip(e.Text()) == e.address
  {
    assert e.Text()[|e.before|] == e.address[0];
    assert IsSpace(',') == false;
    assert ',' !in e.before && ',' !in e.after;
    StripPadded(e.before, e.address, e.after);
  }

  /** What `n` copies of an entry look like. */
  function Repeated(v: string, n: nat): (r: seq<string>)
    ensures |r| == n && forall i :: 0 <= i < n ==> r[i] == v
  {
    seq(n, i => v)
  }

  lemma CopiesChain(v: string, n: nat)
    requires IsAddress(v)
    ensures Chain(Forwarded(None, Repeated(v, n))) == Stripped(Repeated(v, n))
  {
    assert forall a :: a in Repeated(v, n) ==> a == v;
    NoHeaderNoChain();
    ForwardedChain(None, Repeated(v, n));
    assert [] + Stripped(Repeated(v, n)) == Stripped(Repeated(v, n));
  }

  lemma ResolvesInOwn(header: Option<string>, own: seq<string>, trusted: seq<string>, peer: Option<string>, hops: int)
    requires Chain(header) == own + trusted && |trusted| < hops <= |own| + |trusted|
    ensures Resolve(header, peer, hops) == own[|own| + |trusted| - hops]
  {
  }

  lemma ResolvesPastProxies(
    caller: Option<string>, own: seq<string>, addresses: seq<string>, peer: Option<string>, hops: int)
    requires forall a :: a in addresses ==> IsAddress(a)
    requires Chain(caller) == own && |addresses| < hops <= |own| + |addresses|
    ensures Resolve(Forwarded(caller, addresses), peer, hops) == own[|own| + |addresses| - hops]
  {
    ForwardedChain(caller, addresses);
    ResolvesInOwn(Forwarded(caller, addresses), own, Stripped(addresses), peer, hops);
  }

  /** Trusting more hops than there are proxies reads an entry the caller wrote. */
  lemma ResolvesToCallersText(v: string, addresses: seq<string>, peer: Option<string>, hops: int)
    requires forall a :: a in addresses ==> IsAddress(a)
    requires IsAddress(v) && |addresses| < hops
    ensures Resolve(Forwarded(Forwarded(None, Repeated(v, hops - |addresses|)), addresses), peer, hops) == Strip(v)
  {
    var copies := Repeated(v, hops - |addresses|);
    CopiesChain(v, hops - |addresses|);
    ResolvesPastProxies(Forwarded(None, copies), Stripped(copies), addresses, peer, hops);
  }

  ghost predicate IndependentOfCaller(addresses: seq<string>, peer: Option<string>, hops: int) {
    forall c, d :: Resolve(Forwarded(c, addresses), peer, hops) == Resolve(Forwarded(d, addresses), peer, hops)
  }

  /** The result is independent of the caller's text exactly when no more hops are trusted than there are proxies. */
  lemma IndependentExactlyWhenTrusted(addresses: seq<string>, peer: Option<string>, hops: int)
    requires forall a :: a in addresses ==> IsAddress(a)
    ensures IndependentOfCaller(addresses, peer, hops) <==> hops <= |addresses|
  {
    if 0 < hops <= |addresses| {
      forall c {
        ResolvesToTrustedText(c, addresses, peer, hops);
      }
    } else if hops > |addresses| {
      StripPadded("", "a", "");
      StripPadded("", "b", "");
      assert "" + "a" + "" == "a" && "" + "b" + "" == "b";
      assert !IsSpace("a"[0]) && !IsSpace("b"[0]);
      ResolvesToCallersText("a", addresses, peer, hops);
      ResolvesToCallersText("b", addresses, peer, hops);
      var c := Forwarded(None, Repeated("a", hops - |addresses|));
      var d := Forwarded(None, Repeated("b", hops - |addresses|));
      assert Resolve(Forwarded(c, addresses), peer, hops) != Resolve(Forwarded(d, addresses), peer, hops);
    }
  }

  // ---- entries are clean ---------------------------------------------------------------------------

  lemma {:induction false} SplitPartsHaveNoComma(s: string)
    ensures forall p :: p in Split(s) ==> ',' !in p
  {
    if s != [] {
      SplitPartsHaveNoComma(s[1..]);
      var rest := Split(s[1..]);
      assert rest[0] in rest;
      assert forall p :: p in rest[1..] ==> p in rest;
    }
  }

  lemma {:induction false} StripLeftFacts(s: string)
    ensures StripLeft(s) != "" ==> !IsSpace(StripLeft(s)[0])
    ensures ',' !in s ==> ',' !in StripLeft(s)
  {
    if s != [] && IsSpace(s[0]) {
      StripLeftFacts(s[1..]);
    }
  }

  lemma {:induction false} StripRightFacts(s: string)
    ensures StripRight(s) <= s
    ensures StripRight(s) != "" ==> !IsSpace(StripRight(s)[|StripRight(s)| - 1])
    ensures ',' !in s ==> ',' !in StripRight(s)
  {
    if s != [] && IsSpace(s[|s| - 1]) {
      StripRightFacts(s[..|s| - 1]);
    }
  }

  lemma {:induction false} EntriesAreClean(parts: seq<string>)
    requires forall p :: p in parts ==> ',' !in p
    ensures forall e :: e in Entries(parts) ==> Clean(e)
  {
    if parts != [] {
      EntriesAreClean(parts[1..]);
      var left := StripLeft(parts[0]);
      StripLeftFacts(parts[0]);
      StripRightFacts(left);
      assert Strip(parts[0]) != "" ==> Strip(parts[0])[0] == left[0];
    }
  }

  /** Whatever the header, the answer is a clean entry of it, or else the peer's address or "unknown":
      the latter exactly when no hop is trusted or the header has fewer entries than hops. */
  lemma ResolvesToEntryOrPeer(header: Option<string>, peer: Option<string>, hops: int)
    ensures if hops > 0 && |Chain(header)| >= hops
            then Resolve(header, peer, hops) in Chain(header) && Clean(Resolve(header, peer, hops))
            else Resolve(header, peer, hops) == if peer.Some? then peer.value else "unknown"
  {
    SplitPartsHaveNoComma(if header.Some? then header.value else "");
    EntriesAreClean(Split(if header.Some? then header.value else ""));
  }
}
