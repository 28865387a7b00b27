/** The state of one server-to-client tools/list collection, updated in place. */
module ListState {
  import opened Options
  import opened Bytes
  import opened Utf8

  const MAX_PAGES: nat := 50
  const MAX_TOTAL_TOOLS: nat := 1000
  const MAX_RESULT_EXTRAS: nat := 32
  const MAX_RESULT_EXTRA_BYTES: nat := 64 * 1024
  const MAX_LIST_PAGE_BYTES: nat := 16 * 1024 * 1024
  const USIZE_MAX: nat := 0xFFFF_FFFF_FFFF_FFFF

  datatype Tool = Tool(name: string, description: string)

  /** Request ids: ours live in a namespace of their own. */
  datatype RpcId = Internal(n: nat) | Foreign(key: string)

  datatype Extra = Extra(name: string, raw: string)

  // ---- Retained result members ---------------------------------------------------------

  function Len(s: string): nat { |Encode(s)| }

  function Charge(e: Extra): nat { Len(e.name) + Len(e.raw) }

  function Held(extras: seq<Extra>): nat {
    if extras == [] then 0 else Charge(extras[0]) + Held(extras[1..])
  }

  predicate Distinct(extras: seq<Extra>) {
    forall i, j :: 0 <= i < j < |extras| ==> extras[i].name != extras[j].name
  }

  /** The members under `name`, and the others. */
  function Under(extras: seq<Extra>, name: string): seq<Extra> {
    if extras == [] then [] else (if extras[0].name == name then [extras[0]] else []) + Under(extras[1..], name)
  }

  function Without(extras: seq<Extra>, name: string): (r: seq<Extra>)
    ensures forall i :: 0 <= i < |r| ==> r[i] in extras && r[i].name != name
    ensures |r| <= |extras|
  {
    if extras == [] then [] else (if extras[0].name == name then [] else [extras[0]]) + Without(extras[1..], name)
  }

  /** The value retained under a name. */
  function Value(extras: seq<Extra>, name: string): Option<string> {
    if extras == [] then None
    else if extras[0].name == name then Some(extras[0].raw)
    else Value(extras[1..], name)
  }

  /** The value a batch of updates leaves under a name: the latest wins. */
  function Latest(old_: Option<string>, updates: seq<Extra>, name: string): Option<string> {
    if updates == [] then old_
    else
      var last := updates[|updates| - 1];
      if last.name == name then Some(last.raw) else Latest(old_, updates[..|updates| - 1], name)
  }

  lemma {:induction false} HeldSplits(extras: seq<Extra>, name: string)
    ensures Held(Under(extras, name)) + Held(Without(extras, name)) == Held(extras)
  {
    if extras != [] {
      HeldSplits(extras[1..], name);
      var u, w := Under(extras[1..], name), Without(extras[1..], name);
      assert ([extras[0]] + u)[1..] == u && ([extras[0]] + w)[1..] == w && [] + u == u && [] + w == w;
    }
  }

  lemma {:induction false} HeldSnoc(extras: seq<Extra>, e: Extra)
    ensures Held(extras + [e]) == Held(extras) + Charge(e)
  {
    if extras == [] {
      assert extras + [e] == [e] && [e][1..] == [];
    } else {
      assert (extras + [e])[1..] == extras[1..] + [e];
      HeldSnoc(extras[1..], e);
    }
  }

  lemma {:induction false} WithoutDistinct(extras: seq<Extra>, name: string)
    requires Distinct(extras)
    ensures Distinct(Without(extras, name))
  {
    if extras != [] {
      assert forall i, j :: 0 <= i < j < |extras[1..]| ==> extras[1..][i].name != extras[1..][j].name;
      WithoutDistinct(extras[1..], name);
      forall j | 0 <= j < |Without(extras[1..], name)| ensures Without(extras[1..], name)[j].name != extras[0].name {
        var e := Without(extras[1..], name)[j];
        var k :| 0 <= k < |extras[1..]| && extras[1..][k] == e;
        assert extras[k + 1] == e;
      }
    }
  }

  lemma {:induction false} ValueWithout(extras: seq<Extra>, name: string, other: string)
    ensures Value(Without(extras, name), other) == if other == name then None else Value(extras, other)
  {
    if extras != [] {
      ValueWithout(extras[1..], name, other);
      var w := Without(extras[1..], name);
      assert ([extras[0]] + w)[1..] == w && [] + w == w;
    }
  }

  lemma {:induction false} ValueSnoc(extras: seq<Extra>, e: Extra, other: string)
    ensures Value(extras + [e], other)
         == if Value(extras, other).Some? then Value(extras, other) else if e.name == other then Some(e.raw) else None
  {
    if extras == [] {
      assert extras + [e] == [e] && [e][1..] == [];
    } else {
      assert (extras + [e])[1..] == extras[1..] + [e];
      ValueSnoc(extras[1..], e, other);
    }
  }

  /** Replacing a member: its old charge goes, its new one comes, and only its own value changes. */
  lemma Replace(extras: seq<Extra>, e: Extra)
    requires Distinct(extras)
    ensures var r := Without(extras, e.name) + [e];
            && Distinct(r) && Held(r) == Held(extras) - Held(Under(extras, e.name)) + Charge(e)
            && forall other :: Value(r, other) == if other == e.name then Some(e.raw) else Value(extras, other)
  {
    var w := Without(extras, e.name);
    WithoutDistinct(extras, e.name);
    HeldSplits(extras, e.name);
    HeldSnoc(w, e);
    forall other ensures Value(w + [e], other) == if other == e.name then Some(e.raw) else Value(extras, other) {
      ValueWithout(extras, e.name, other);
      ValueSnoc(w, e, other);
    }
  }

  function Concat(pages: seq<seq<Tool>>): seq<Tool> {
    if pages == [] then [] else Concat(pages[..|pages| - 1]) + pages[|pages| - 1]
  }

  function SaturatingAdd(a: nat, b: nat): nat { Min(a + b, USIZE_MAX) }

  function SaturatingSub(a: nat, b: nat): nat { if a < b then 0 else a - b }

  class S2cListState {
    var accumulatedTools: seq<Tool>
    var resultExtras: seq<Extra>
    var collectingClientId: Option<string>
    var collectingOriginal: string
    var waitingInternalId: Option<RpcId>
    var seenCursors: set<string>
    var pageCount: nat
    var extrasBytes: nat
    var pageBytes: nat
    var heldListChanged: Option<string>
    var pendingRevalidate: bool
    var internalRevalidation: bool
    var lastVerified: Option<string>

    /** The pages appended and the cursors accepted since the last reset. */
    ghost var pages: seq<seq<Tool>>
    ghost var cursors: seq<string>

    ghost predicate Valid()
      reads this
    {
      && accumulatedTools == Concat(pages) && pageCount == |pages|
      && extrasBytes == Held(resultExtras) <= MAX_RESULT_EXTRA_BYTES && |resultExtras| <= MAX_RESULT_EXTRAS
      && Distinct(resultExtras)
      && (forall c :: c in seenCursors <==> c in cursors)
      && (forall i, j :: 0 <= i < j < |cursors| ==> cursors[i] != cursors[j])
    }

    constructor ()
      ensures Valid() && pages == [] && cursors == [] && resultExtras == [] && pageBytes == 0
      ensures collectingClientId == None && waitingInternalId == None && heldListChanged == None && lastVerified == None
      ensures !pendingRevalidate && !internalRevalidation && collectingOriginal == ""
    {
      accumulatedTools, resultExtras, collectingClientId, collectingOriginal := [], [], None, "";
      waitingInternalId, seenCursors, pageCount, extrasBytes, pageBytes := None, {}, 0, 0, 0;
      heldListChanged, pendingRevalidate, internalRevalidation, lastVerified := None, false, false, None;
      pages, cursors := [], [];
    }

    predicate InFlight()
      reads this
    {
      collectingClientId.Some? || waitingInternalId.Some? || accumulatedTools != []
    }

    /** The latest notification is held; a listing in flight queues a revalidation. */
    method HoldListChanged(line: string, alreadyBusy: bool) returns (inFlight: bool)
      requires Valid()
      modifies this`heldListChanged, this`pendingRevalidate
      ensures Valid() && heldListChanged == Some(line) && inFlight == (alreadyBusy || InFlight())
      ensures pendingRevalidate == (old(pendingRevalidate) || inFlight)
    {
      heldListChanged := Some(line);
      inFlight := alreadyBusy || InFlight();
      if inFlight { pendingRevalidate := true; }
    }

    /** The page buffer goes; client id, original request, notification and revalidation stay. */
    method DiscardPages()
      modifies this`accumulatedTools, this`resultExtras, this`extrasBytes, this`pageBytes, this`pageCount
      modifies this`seenCursors, this`waitingInternalId, this`pages, this`cursors
      ensures Valid() && pages == [] && cursors == [] && resultExtras == [] && pageBytes == 0
      ensures waitingInternalId == None
    {
      accumulatedTools, resultExtras, extrasBytes, pageBytes, pageCount := [], [], 0, 0, 0;
      seenCursors, waitingInternalId := {}, None;
      pages, cursors := [], [];
    }

    method BeginRevalidation(template: string, internalId: nat)
      modifies this
      ensures Valid() && pages == [] && cursors == [] && resultExtras == [] && pageBytes == 0
      ensures internalRevalidation && collectingOriginal == template && waitingInternalId == Some(Internal(internalId))
      ensures collectingClientId == old(collectingClientId) && heldListChanged == old(heldListChanged)
      ensures pendingRevalidate == old(pendingRevalidate) && lastVerified == old(lastVerified)
    {
      internalRevalidation := true;
      DiscardPages();
      collectingOriginal := template;
      waitingInternalId := Some(Internal(internalId));
    }

    /** The page is kept even when it breaks a cap: the caller aborts on the error. */
    method AppendPage(tools: seq<Tool>) returns (ok: bool)
      requires Valid()
      modifies this`accumulatedTools, this`pageCount, this`pages
      ensures Valid() && pages == old(pages) + [tools]
      ensures ok <==> |pages| <= MAX_PAGES && |Concat(pages)| <= MAX_TOTAL_TOOLS
    {
      accumulatedTools, pageCount, pages := accumulatedTools + tools, pageCount + 1, pages + [tools];
      assert pages[..|pages| - 1] == old(pages);
      ok := pageCount <= MAX_PAGES && |accumulatedTools| <= MAX_TOTAL_TOOLS;
    }

    /** A cursor is accepted exactly when it was not accepted since the last reset. */
    method RecordCursor(cursor: string) returns (ok: bool)
      requires Valid()
      modifies this`seenCursors, this`cursors
      ensures Valid() && (ok <==> cursor !in old(cursors))
      ensures cursors == if ok then old(cursors) + [cursor] else old(cursors)
    {
      ok := cursor !in seenCursors;
      if ok { cursors := cursors + [cursor]; }
      seenCursors := seenCursors + {cursor};
    }

    /** One member replaced, unless a cap forbids it; the old value is gone either way. */
    method RecordExtra(e: Extra) returns (ok: bool)
      requires Valid()
      modifies this`resultExtras, this`extrasBytes
      ensures Valid()
      ensures var kept := Without(old(resultExtras), e.name);
              && (ok <==> Held(kept) + Charge(e) <= MAX_RESULT_EXTRA_BYTES && |kept| < MAX_RESULT_EXTRAS)
              && resultExtras == if ok then kept + [e] else kept
      ensures ok ==> forall n :: Value(resultExtras, n)
                              == if n == e.name then Some(e.raw) else Value(old(resultExtras), n)
    {
      HeldSplits(resultExtras, e.name);
      WithoutDistinct(resultExtras, e.name);
      Replace(resultExtras, e);
      var replaced := Held(Under(resultExtras, e.name));
      resultExtras := Without(resultExtras, e.name);
      extrasBytes := SaturatingSub(extrasBytes, replaced);
      var charge := Charge(e);
      ok := !(SaturatingAdd(extrasBytes, charge) > MAX_RESULT_EXTRA_BYTES || |resultExtras| >= MAX_RESULT_EXTRAS);
      if ok {
        extrasBytes := extrasBytes + charge;
        resultExtras := resultExtras + [e];
      }
    }

    /** A batch that is accepted leaves every name with its latest value and every other name alone. */
    method RecordResultExtras(extras: seq<Extra>) returns (ok: bool)
      requires Valid()
      modifies this`resultExtras, this`extrasBytes
      ensures Valid()
      ensures ok ==> forall n :: Value(resultExtras, n) == Latest(Value(old(resultExtras), n), extras, n)
    {
      for i := 0 to |extras|
        invariant Valid()
        invariant forall n :: Value(resultExtras, n) == Latest(Value(old(resultExtras), n), extras[..i], n)
      {
        assert extras[..i + 1][..i] == extras[..i];
        ok := RecordExtra(extras[i]);
        if !ok { return; }
      }
      assert extras[..|extras|] == extras;
      ok := true;
    }

    method NotePageBytes(n: nat) returns (ok: bool)
      requires Valid()
      modifies this`pageBytes
      ensures Valid() && pageBytes == SaturatingAdd(old(pageBytes), n) && (ok <==> pageBytes <= MAX_LIST_PAGE_BYTES)
    {
      pageBytes := SaturatingAdd(pageBytes, n);
      ok := pageBytes <= MAX_LIST_PAGE_BYTES;
    }

    /** The collected tools are the pages since the last reset, in order; the held notification stays. */
    method TakeCompletedPages() returns (tools: seq<Tool>, clientId: Option<string>, extras: seq<Extra>)
      requires Valid()
      modifies this`accumulatedTools, this`resultExtras, this`extrasBytes, this`pageBytes, this`pageCount
      modifies this`seenCursors, this`waitingInternalId, this`pages, this`cursors, this`collectingClientId
      ensures tools == Concat(old(pages)) && clientId == old(collectingClientId) && extras == old(resultExtras)
      ensures Valid() && pages == [] && cursors == [] && resultExtras == [] && pageBytes == 0
      ensures waitingInternalId == None && collectingClientId == None
    {
      tools, clientId, extras := accumulatedTools, collectingClientId, resultExtras;
      accumulatedTools, collectingClientId, resultExtras := [], None, [];
      DiscardPages();
    }

    /** A cancelled listing is dropped only for the client it is bound to. */
    method ReleaseCollectionFor(id: RpcId, rpcIdFromRaw: string -> Option<RpcId>) returns (internal: Option<RpcId>)
      requires Valid()
      modifies this`accumulatedTools, this`resultExtras, this`extrasBytes, this`pageBytes, this`pageCount
      modifies this`seenCursors, this`waitingInternalId, this`pages, this`cursors, this`collectingClientId
      ensures Valid()
      ensures var bound := old(collectingClientId).Some? && rpcIdFromRaw(old(collectingClientId).value) == Some(id);
              && internal == (if bound then old(waitingInternalId) else None)
              && collectingClientId == (if bound then None else old(collectingClientId))
              && waitingInternalId == (if bound then None else old(waitingInternalId))
              && pages == (if bound then [] else old(pages)) && cursors == (if bound then [] else old(cursors))
              && resultExtras == (if bound then [] else old(resultExtras))
              && pageBytes == (if bound then 0 else old(pageBytes))
    {
      if collectingClientId.None? || rpcIdFromRaw(collectingClientId.value) != Some(id) { return None; }
      internal := waitingInternalId;
      collectingClientId := None;
      DiscardPages();
    }

    /** The digest is recorded, and reported as changed unless it is the recorded one. */
    method RecordVerifiedDigest(digest: string) returns (recorded: string, changed: bool)
      requires Valid()
      modifies this`lastVerified
      ensures Valid() && recorded == digest && lastVerified == Some(digest)
      ensures changed <==> old(lastVerified) != Some(digest)
    {
      changed := lastVerified != Some(digest);
      if changed { lastVerified := Some(digest); }
      recorded := lastVerified.value;
    }
  }
}
