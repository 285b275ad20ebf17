/** Which forwarded address is believed: lib/client-ip.ts, and its second copy in lib/session.ts. */
module ClientIp {
  import opened Common
  import opened JsStrings

  const UNKNOWN := "unknown"

  /** The headers that matter; the hop count is absent when the setting is not a number. */
  datatype Headers = Headers(forwardedFor: Option<string>, realIp: Option<string>)

  /** `split(",").map(trim).filter(Boolean)`. */
  function Entries(parts: seq<string>): seq<string> {
    if parts == [] then []
    else (if Trim(parts[0]) != "" then [Trim(parts[0])] else []) + Entries(parts[1..])
  }

  function ForwardedEntries(header: string): seq<string> {
    Entries(Split(header, ','))
  }

  predicate TrustsForwarded(hops: Option<int>, h: Headers) {
    h.forwardedFor.Some? && h.forwardedFor.value != "" && hops.Some? && hops.value > 0
  }

  /** `parts[Math.max(0, parts.length - trustedHops)]`. */
  function PickHop(parts: seq<string>, hops: int): Option<string>
    requires hops > 0
  {
    var index := Max(0, |parts| - hops);
    if index < |parts| then Some(parts[index]) else None
  }

  /** `value || fallback` on a possibly absent text. */
  function Or(value: Option<string>, fallback: string): string {
    if value.Some? && value.value != "" then value.value else fallback
  }

  function GetClientIp(hops: Option<int>, h: Headers): string {
    if TrustsForwarded(hops, h) then Or(PickHop(ForwardedEntries(h.forwardedFor.value), hops.value), UNKNOWN)
    else Or(h.realIp, UNKNOWN)
  }

  /** `readRequestMeta` given a request. */
  function MetaIpOfRequest(hops: Option<int>, h: Headers): Option<string> {
    var ip := GetClientIp(hops, h);
    if ip == UNKNOWN then None else Some(ip)
  }

  /** `readRequestMeta` without a request: the second copy of the rule, assigning `ip` by branch. */
  method ReadRequestMetaIp(hops: Option<int>, h: Headers) returns (ip: Option<string>)
    ensures ip == MetaIpOfHeaders(hops, h)
  {
    ip := h.realIp;
    if h.forwardedFor.Some? && h.forwardedFor.value != "" && hops.Some? && hops.value > 0 {
      var parts := ForwardedEntries(h.forwardedFor.value);
      EntriesNonBlank(Split(h.forwardedFor.value, ','));
      var picked := PickHop(parts, hops.value);
      if picked.Some? && picked.value != "" {
        ip := picked;
      }
    } else if !(hops.Some? && hops.value > 0) {
      ip := h.realIp;
    }
  }

  function MetaIpOfHeaders(hops: Option<int>, h: Headers): Option<string> {
    if TrustsForwarded(hops, h) && ForwardedEntries(h.forwardedFor.value) != []
    then PickHop(ForwardedEntries(h.forwardedFor.value), hops.value)
    else h.realIp
  }

  lemma {:induction false} EntriesAppend(a: seq<string>, b: seq<string>)
    ensures Entries(a + b) == Entries(a) + Entries(b)
  {
    if a == [] {
      assert a + b == b;
    } else {
      assert (a + b)[1..] == a[1..] + b;
      EntriesAppend(a[1..], b);
    }
  }

  lemma {:induction false} EntriesNonBlank(parts: seq<string>)
    ensures forall i :: 0 <= i < |Entries(parts)| ==> Entries(parts)[i] != ""
  {
    if parts != [] {
      EntriesNonBlank(parts[1..]);
    }
  }

  lemma {:induction false} EntriesOfNonBlank(parts: seq<string>)
    requires forall i :: 0 <= i < |parts| ==> Trim(parts[i]) != ""
    ensures |Entries(parts)| == |parts|
    ensures forall i :: 0 <= i < |parts| ==> Entries(parts)[i] == Trim(parts[i])
  {
    if parts != [] {
      EntriesOfNonBlank(parts[1..]);
    }
  }

  lemma EntriesBehindProxies(client: string, added: seq<string>)
    requires added != []
    requires forall i :: 0 <= i < |added| ==> ',' !in added[i] && Trim(added[i]) != ""
    ensures
      var own := ForwardedEntries(client);
      var all := ForwardedEntries(client + [','] + JoinWith(added, ','));
      |all| == |own| + |added| && all[|own|] == Trim(added[0])
  {
    hide Trim, JoinWith, Split;
    SplitAppend(client, JoinWith(added, ','), ',');
    SplitJoin(added, ',');
    EntriesAppend(Split(client, ','), added);
    EntriesOfNonBlank(added);
  }

  lemma PickedByBoth(hops: int, header: string, realIp: Option<string>, i: nat)
    requires hops > 0 && header != ""
    requires |ForwardedEntries(header)| == i + hops && ForwardedEntries(header)[i] != ""
    ensures GetClientIp(Some(hops), Headers(Some(header), realIp)) == ForwardedEntries(header)[i]
    ensures MetaIpOfHeaders(Some(hops), Headers(Some(header), realIp)) == Some(ForwardedEntries(header)[i])
  {
    hide ForwardedEntries;
  }

  /** A header entry as a proxy may write it: an address with white space around it. */
  datatype Padded = Padded(pre: string, address: string, post: string)

  predicate IsPadded(e: Padded) {
    Blank(e.pre) && IsCore(e.address) && Blank(e.post) && ',' !in e.address
  }

  function Written(es: seq<Padded>): (parts: seq<string>)
    ensures |parts| == |es|
    ensures forall i :: 0 <= i < |es| ==> parts[i] == es[i].pre + es[i].address + es[i].post
  {
    if es == [] then [] else [es[0].pre + es[0].address + es[0].post] + Written(es[1..])
  }

  /**
   Behind h trusted proxies the header is whatever the client sent, a comma, and the h addresses the
   proxies added, each with any white space around it. The address taken is the first of those h, without
   that white space, and nothing the client wrote changes it; both copies of the rule take it.
   */
  lemma FirstProxyAddressIsTaken(client: string, added: seq<Padded>, realIp: Option<string>)
    requires added != [] && forall i :: 0 <= i < |added| ==> IsPadded(added[i])
    ensures
      var h := Headers(Some(client + [','] + JoinWith(Written(added), ',')), realIp);
      && GetClientIp(Some(|added|), h) == added[0].address
      && MetaIpOfHeaders(Some(|added|), h) == Some(added[0].address)
  {
    hide *;
    WrittenTrims(added);
    ClientTextIsIgnored(client, Written(added), realIp);
  }

  lemma {:induction false} WrittenTrims(added: seq<Padded>)
    requires forall i :: 0 <= i < |added| ==> IsPadded(added[i])
    ensures forall i :: 0 <= i < |added| ==>
      ',' !in Written(added)[i] && Trim(Written(added)[i]) == added[i].address != ""
  {
    hide IsPadded, Trim;
    if added != [] {
      PaddedTrims(added[0]);
      WrittenTrims(added[1..]);
    }
  }

  lemma PaddedTrims(e: Padded)
    requires IsPadded(e)
    ensures
      var written := e.pre + e.address + e.post;
      ',' !in written && Trim(written) == e.address != ""
  {
    TrimDropsBlanks(e.pre, e.address, e.post);
    hide Trim;
    assert !IsWhite(',');
  }

  /** An empty forwarded header counts as none; without one to trust, the real-IP header is taken if it says something. */
  lemma OtherwiseRealIp(hops: Option<int>, forwarded: Option<string>, address: string)
    requires forwarded.None? || forwarded.value == "" || hops.None? || hops.value <= 0
    ensures GetClientIp(hops, Headers(forwarded, None)) == "unknown"
    ensures GetClientIp(hops, Headers(forwarded, Some(""))) == "unknown"
    ensures address != "" ==> GetClientIp(hops, Headers(forwarded, Some(address))) == address
    ensures MetaIpOfHeaders(hops, Headers(forwarded, None)) == None
    ensures MetaIpOfHeaders(hops, Headers(forwarded, Some(address))) == Some(address)
  {
  }

  /** A trusted header of blanks and commas names nobody. */
  lemma BlankHeaderIsUnknown(hops: int, header: string, realIp: Option<string>)
    requires hops > 0 && header != "" && forall i :: 0 <= i < |header| ==> header[i] == ',' || IsWhite(header[i])
    ensures GetClientIp(Some(hops), Headers(Some(header), realIp)) == "unknown"
  {
    BlankHasNoEntries(header);
  }

  lemma {:induction false} BlankHasNoEntries(header: string)
    requires forall i :: 0 <= i < |header| ==> header[i] == ',' || IsWhite(header[i])
    ensures ForwardedEntries(header) == []
  {
    JoinSplit(header, ',');
    BlankPieces(header);
    NoneOfBlank(Split(header, ','));
  }

  lemma {:induction false} BlankPieces(header: string)
    requires forall i :: 0 <= i < |header| ==> header[i] == ',' || IsWhite(header[i])
    ensures forall i :: 0 <= i < |Split(header, ',')| ==> Blank(Split(header, ',')[i])
  {
    if header != [] {
      BlankPieces(header[1..]);
    }
  }

  lemma {:induction false} NoneOfBlank(parts: seq<string>)
    requires forall i :: 0 <= i < |parts| ==> Blank(parts[i])
    ensures Entries(parts) == []
  {
    if parts != [] {
      TrimAllBlank(parts[0]);
      NoneOfBlank(parts[1..]);
    }
  }

  /**
   Behind h trusted proxies the header is whatever the client sent, a comma, and the h entries the
   proxies added. The address taken is the first of those h, and nothing the client wrote changes it;
   both copies of the rule take it.
   */
  lemma ClientTextIsIgnored(client: string, added: seq<string>, realIp: Option<string>)
    requires added != []
    requires forall i :: 0 <= i < |added| ==> ',' !in added[i] && Trim(added[i]) != ""
    ensures
      var h := Headers(Some(client + [','] + JoinWith(added, ',')), realIp);
      && GetClientIp(Some(|added|), h) == Trim(added[0])
      && MetaIpOfHeaders(Some(|added|), h) == Some(Trim(added[0]))
  {
    EntriesBehindProxies(client, added);
    hide *;
    var header := client + [','] + JoinWith(added, ',');
    PickedByBoth(|added|, header, realIp, |ForwardedEntries(client)|);
  }

  /** With fewer entries than hops the first non-blank entry is taken. */
  lemma ShortChainTakesFirst(hops: int, h: Headers)
    requires TrustsForwarded(Some(hops), h)
    requires 0 < |ForwardedEntries(h.forwardedFor.value)| <= hops
    ensures GetClientIp(Some(hops), h) == ForwardedEntries(h.forwardedFor.value)[0]
  {
    EntriesNonBlank(Split(h.forwardedFor.value, ','));
  }

  /** Without trusted hops the forwarded header is not looked at. */
  lemma UntrustedHeaderIsIgnored(hops: Option<int>, a: Option<string>, b: Option<string>, realIp: Option<string>)
    requires hops.None? || hops.value <= 0
    ensures GetClientIp(hops, Headers(a, realIp)) == GetClientIp(hops, Headers(b, realIp))
    ensures MetaIpOfHeaders(hops, Headers(a, realIp)) == MetaIpOfHeaders(hops, Headers(b, realIp))
  {
  }

  /**
   The two copies record the same address exactly if, with a trusted header, the picked entry is not the
   word the first copy uses for none, or there is neither an entry nor a real-IP header; and otherwise the
   real-IP header is neither empty nor that word.
   */
  lemma CopiesAgreeIff(hops: Option<int>, h: Headers)
    ensures MetaIpOfRequest(hops, h) == MetaIpOfHeaders(hops, h) <==>
      if TrustsForwarded(hops, h) then
        var entries := ForwardedEntries(h.forwardedFor.value);
        if entries == [] then h.realIp.None? else entries[Max(0, |entries| - hops.value)] != UNKNOWN
      else
        h.realIp != Some("") && h.realIp != Some(UNKNOWN)
  {
    if h.forwardedFor.Some? {
      EntriesNonBlank(Split(h.forwardedFor.value, ','));
    }
  }

  /** A client behind one proxy calls itself unknown; a header of blanks; an empty or unknown real-IP header. */
  lemma CopiesDiffer(realIp: string)
    ensures
      var h := Headers(Some(UNKNOWN), Some(realIp));
      MetaIpOfRequest(Some(1), h) == None && MetaIpOfHeaders(Some(1), h) == Some(UNKNOWN)
    ensures
      var h := Headers(Some(" "), Some(realIp));
      MetaIpOfRequest(Some(1), h) == None && MetaIpOfHeaders(Some(1), h) == Some(realIp)
    ensures
      var empty, unknown := Headers(None, Some("")), Headers(None, Some(UNKNOWN));
      && MetaIpOfRequest(Some(0), empty) == None && MetaIpOfHeaders(Some(0), empty) == Some("")
      && MetaIpOfRequest(Some(0), unknown) == None && MetaIpOfHeaders(Some(0), unknown) == Some(UNKNOWN)
  {
    SplitWhole(UNKNOWN, ',');
    TrimNothing(UNKNOWN);
    assert ForwardedEntries(UNKNOWN) == [UNKNOWN] by { assert [UNKNOWN][1..] == []; }
    SplitWhole(" ", ',');
    assert " "[1..] == "";
    assert Trim(" ") == "";
    assert ForwardedEntries(" ") == [] by { assert [" "][1..] == []; }
  }
}
