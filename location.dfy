/** The location table and the preload of statically provisioned DID routes
    that `Server.start` performs before the inbound listener is attached
    (mod/core/server.js, lines 65-72). */
module Location {
  import opened Wrappers

  /** The URI object that `createAddress(contact)`, `createContactHeader` and
      `getAddress().getURI()` yield for a contact string. */
  datatype Uri = Uri(text: string)

  /** A DID record of the configuration: a dialable number and its contact. */
  datatype Did = Did(e164num: string, contact: string)

  /** The address-factory chain applied to a DID's contact, given as a
      parameter: `None` when the factory cannot parse the contact (it throws). */
  type ContactParser = string -> Option<Uri>

  const TelPrefix: string := "tel:"

  /** The location key under which a DID is stored. */
  function Key(did: Did): (k: string)
    ensures |k| == |TelPrefix| + |did.e164num|
    ensures k[..|TelPrefix|] == TelPrefix && k[|TelPrefix|..] == did.e164num
  {
    TelPrefix + did.e164num
  }

  /** Two DIDs share a location key exactly when they share a number. */
  lemma KeyInjective(a: Did, b: Did)
    ensures Key(a) == Key(b) <==> a.e164num == b.e164num
  {
    if Key(a) == Key(b) {
      assert a.e164num == Key(a)[|TelPrefix|..] == Key(b)[|TelPrefix|..] == b.e164num;
    }
  }

  /** The keys that a preload of `dids` writes. */
  function DidKeys(dids: seq<Did>): set<string>
  {
    set d | d in dids :: Key(d)
  }

  predicate AllParse(dids: seq<Did>, contactUri: ContactParser)
  {
    forall i | 0 <= i < |dids| :: contactUri(dids[i].contact).Some?
  }

  /** The table `t` after putting every record of `dids` into it, in order. */
  function Preloaded(t: map<string, Uri>, dids: seq<Did>, contactUri: ContactParser): (r: map<string, Uri>)
    requires AllParse(dids, contactUri)
    decreases |dids|
  {
    if dids == [] then t
    else
      var n := |dids| - 1;
      Preloaded(t, dids[..n], contactUri)[Key(dids[n]) := contactUri(dids[n].contact).value]
  }

  /** Preload writes exactly the keys of the listed DIDs, and removes none. */
  lemma {:induction false} PreloadedKeys(t: map<string, Uri>, dids: seq<Did>, contactUri: ContactParser)
    requires AllParse(dids, contactUri)
    ensures Preloaded(t, dids, contactUri).Keys == t.Keys + DidKeys(dids)
    decreases |dids|
  {
    if dids != [] {
      var n := |dids| - 1;
      assert dids == dids[..n] + [dids[n]];
      assert DidKeys(dids) == DidKeys(dids[..n]) + {Key(dids[n])};
      assert AllParse(dids[..n], contactUri);
      PreloadedKeys(t, dids[..n], contactUri);
    }
  }

  /** Every key that preload adds carries the `tel:` prefix of a listed DID. */
  lemma PreloadedNewKeys(t: map<string, Uri>, dids: seq<Did>, contactUri: ContactParser, k: string)
    requires AllParse(dids, contactUri)
    requires k in Preloaded(t, dids, contactUri) && k !in t
    ensures |k| >= |TelPrefix| && k[..|TelPrefix|] == TelPrefix
    ensures exists i | 0 <= i < |dids| :: dids[i].e164num == k[|TelPrefix|..]
  {
    PreloadedKeys(t, dids, contactUri);
    var d :| d in dids && Key(d) == k;
    var i :| 0 <= i < |dids| && dids[i] == d;
  }

  /** A key no listed DID maps to keeps its old entry, or stays absent. */
  lemma {:induction false} PreloadedFrame(t: map<string, Uri>, dids: seq<Did>, contactUri: ContactParser, k: string)
    requires AllParse(dids, contactUri)
    requires forall i | 0 <= i < |dids| :: Key(dids[i]) != k
    ensures k in Preloaded(t, dids, contactUri) <==> k in t
    ensures k in t ==> Preloaded(t, dids, contactUri)[k] == t[k]
    decreases |dids|
  {
    if dids != [] {
      var n := |dids| - 1;
      assert AllParse(dids[..n], contactUri);
      PreloadedFrame(t, dids[..n], contactUri, k);
    }
  }

  /** The last DID with a given number decides that number's entry. */
  lemma {:induction false} PreloadedLastWins(t: map<string, Uri>, dids: seq<Did>, contactUri: ContactParser, j: nat)
    requires AllParse(dids, contactUri)
    requires j < |dids|
    requires forall i | j < i < |dids| :: dids[i].e164num != dids[j].e164num
    ensures Key(dids[j]) in Preloaded(t, dids, contactUri)
    ensures Preloaded(t, dids, contactUri)[Key(dids[j])] == contactUri(dids[j].contact).value
    decreases |dids|
  {
    var n := |dids| - 1;
    if j < n {
      KeyInjective(dids[n], dids[j]);
      assert AllParse(dids[..n], contactUri);
      PreloadedLastWins(t, dids[..n], contactUri, j);
    }
  }

  /** The index of the last DID in `dids` that has the number of `dids[i]`. */
  function LastSameNumber(dids: seq<Did>, i: nat): (j: nat)
    requires i < |dids|
    ensures i <= j < |dids| && dids[j].e164num == dids[i].e164num
    ensures forall k | j < k < |dids| :: dids[k].e164num != dids[i].e164num
    decreases |dids|
  {
    var n := |dids| - 1;
    if dids[n].e164num == dids[i].e164num then n
    else
      assert i < n;
      LastSameNumber(dids[..n], i)
  }

  /** Every listed DID is routed, to the contact of the last DID with the
      same number. */
  lemma PreloadedEveryDid(t: map<string, Uri>, dids: seq<Did>, contactUri: ContactParser, i: nat)
    requires AllParse(dids, contactUri)
    requires i < |dids|
    ensures Key(dids[i]) in Preloaded(t, dids, contactUri)
    ensures Preloaded(t, dids, contactUri)[Key(dids[i])]
         == contactUri(dids[LastSameNumber(dids, i)].contact).value
  {
    var j := LastSameNumber(dids, i);
    KeyInjective(dids[j], dids[i]);
    PreloadedLastWins(t, dids, contactUri, j);
  }

  lemma AllParseAppend(a: seq<Did>, b: seq<Did>, contactUri: ContactParser)
    requires AllParse(a, contactUri) && AllParse(b, contactUri)
    ensures AllParse(a + b, contactUri)
  {
    forall i | 0 <= i < |a + b| ensures contactUri((a + b)[i].contact).Some? {
      if i < |a| { assert (a + b)[i] == a[i]; } else { assert (a + b)[i] == b[i - |a|]; }
    }
  }

  /** Preloading two batches one after the other is preloading their
      concatenation. */
  lemma {:induction false} PreloadedAppend(t: map<string, Uri>, a: seq<Did>, b: seq<Did>, contactUri: ContactParser)
    requires AllParse(a, contactUri) && AllParse(b, contactUri)
    ensures AllParse(a + b, contactUri)
    ensures Preloaded(t, a + b, contactUri) == Preloaded(Preloaded(t, a, contactUri), b, contactUri)
    decreases |b|
  {
    AllParseAppend(a, b, contactUri);
    if b != [] {
      var n := |b| - 1;
      var ab := a + b;
      var last := b[n];
      var u := contactUri(last.contact).value;
      assert ab[..|ab| - 1] == a + b[..n];
      assert ab[|ab| - 1] == last;
      assert AllParse(b[..n], contactUri);
      PreloadedAppend(t, a, b[..n], contactUri);
      assert AllParse(ab[..|ab| - 1], contactUri);
      calc {
        Preloaded(t, ab, contactUri);
        Preloaded(t, ab[..|ab| - 1], contactUri)[Key(ab[|ab| - 1]) := contactUri(ab[|ab| - 1].contact).value];
        Preloaded(t, a + b[..n], contactUri)[Key(last) := u];
        Preloaded(Preloaded(t, a, contactUri), b[..n], contactUri)[Key(last) := u];
        Preloaded(Preloaded(t, a, contactUri), b, contactUri);
      }
    } else {
      assert a + b == a;
    }
  }

  /** The shared location service: a table from keys to URIs that `put`
      overwrites (last write wins). */
  class LocationTable {
    var entries: map<string, Uri>

    constructor ()
      ensures entries == map[]
    {
      entries := map[];
    }

    method Put(key: string, uri: Uri)
      modifies this
      ensures entries == old(entries)[key := uri]
    {
      entries := entries[key := uri];
    }
  }

  /** The preload loop. On success (`None`) the table is the old table with
      every DID put in order; when the contact of record `i` cannot be parsed
      the loop stops there (`Some(i)`), with records before `i` already put. */
  method Preload(table: LocationTable, dids: seq<Did>, contactUri: ContactParser) returns (failed: Option<nat>)
    modifies table
    ensures failed.None? ==> AllParse(dids, contactUri)
    ensures failed.None? ==> table.entries == Preloaded(old(table.entries), dids, contactUri)
    ensures failed.Some? ==> failed.value < |dids| && contactUri(dids[failed.value].contact).None?
    ensures failed.Some? ==> AllParse(dids[..failed.value], contactUri)
    ensures failed.Some? ==>
      table.entries == Preloaded(old(table.entries), dids[..failed.value], contactUri)
  {
    for i := 0 to |dids|
      invariant AllParse(dids[..i], contactUri)
      invariant table.entries == Preloaded(old(table.entries), dids[..i], contactUri)
    {
      var did := dids[i];
      var k := TelPrefix + did.e164num;
      var uri := contactUri(did.contact);
      if uri.None? {
        return Some(i);
      }
      assert dids[..i + 1][..i] == dids[..i];
      table.Put(k, uri.value);
    }
    assert dids[..|dids|] == dids;
    return None;
  }
}
