/**
  The paginated transaction fetcher: it asks the RPC client for a page of
  signatures older than its checkpoint, moves the checkpoint to the last
  signature of the page, and fetches each transaction, keeping the ones that
  arrive and skipping the ones that fail.

  The RPC client is an oracle: a pair of functions giving the answer of
  `get_signatures_for_address` and of `get_transaction`. Errors are kept as
  their display text, which is what the fetcher keeps of them.
*/
module TransactionFetcher {
  import opened Base

  /** `FetchError` */
  datatype FetchError = Rpc(message: string) | RateLimited | Network(message: string) | Other(message: string)

  /** The user-facing text of each error. */
  function Display(e: FetchError): (text: string) {
    match e
    case Rpc(m) => "RPC error: " + m
    case RateLimited => "Rate limited"
    case Network(m) => "Network error: " + m
    case Other(m) => "Other: " + m
  }

  /** `FetchProgress` */
  datatype FetchProgress = FetchProgress(fetched: nat, lastSignature: Option<string>, done: bool)

  /**
    The two client calls the fetcher makes: signatures for an address before
    a cursor, at most `limit` of them, and the transaction of one signature.
  */
  datatype RpcOracle<Tx> = RpcOracle(
    signaturesFor: (string, Option<string>, nat) -> Result<seq<string>, string>,
    transaction: string -> Result<Tx, string>)

  /** The transactions whose fetch succeeds, in the order of their signatures. */
  function Successful<Tx>(sigs: seq<string>, fetch: string -> Result<Tx, string>): (r: seq<Tx>)
    ensures |r| <= |sigs|
    decreases |sigs|
  {
    if |sigs| == 0 then []
    else
      var rest := Successful(sigs[..|sigs| - 1], fetch);
      match fetch(sigs[|sigs| - 1])
      case Ok(tx) => rest + [tx]
      case Err(_) => rest
  }

  /**
    One `fetch_next_batch` call from checkpoint `checkpoint`: the batch or the
    error, and the checkpoint afterwards.
  */
  function NextBatch<Tx>(client: RpcOracle<Tx>, address: string, batchSize: nat, checkpoint: Option<string>)
    : (r: (Result<seq<Tx>, FetchError>, Option<string>))
    ensures r.0.Err? ==> r.0.error.Rpc? && r.1 == checkpoint
  {
    match client.signaturesFor(address, checkpoint, batchSize)
    case Err(e) => (Err(Rpc(e)), checkpoint)
    case Ok(sigs) =>
      if |sigs| == 0 then (Ok([]), checkpoint)
      else (Ok(Successful(sigs, client.transaction)), Some(sigs[|sigs| - 1]))
  }

  class Fetcher<Tx> {
    const client: RpcOracle<Tx>
    const address: string
    const batchSize: nat
    var checkpoint: Option<string>

    /** A fetcher with the given client, address, page size and starting checkpoint. */
    constructor (client: RpcOracle<Tx>, address: string, batchSize: nat, checkpoint: Option<string>)
      ensures this.client == client && this.address == address && this.batchSize == batchSize
      ensures this.checkpoint == checkpoint
    {
      this.client := client;
      this.address := address;
      this.batchSize := batchSize;
      this.checkpoint := checkpoint;
    }

    /**
      `fetch_next_batch`: a failed signature query is an `Rpc` error and an
      empty page an empty batch, both leaving the checkpoint; otherwise the
      checkpoint moves to the page's last signature and the batch holds the
      transactions that could be fetched.
    */
    method FetchNextBatch() returns (r: Result<seq<Tx>, FetchError>)
      modifies this`checkpoint
      ensures (r, checkpoint) == NextBatch(client, address, batchSize, old(checkpoint))
    {
      var page := client.signaturesFor(address, checkpoint, batchSize);
      if page.Err? {
        return Err(Rpc(page.error));
      }
      var sigs := page.value;
      if |sigs| == 0 {
        return Ok([]);
      }
      checkpoint := Some(sigs[|sigs| - 1]);
      var txs: seq<Tx> := [];
      for i := 0 to |sigs|
        invariant txs == Successful(sigs[..i], client.transaction)
      {
        assert sigs[..i + 1][..i] == sigs[..i];
        match client.transaction(sigs[i]) {
          case Ok(tx) => txs := txs + [tx];
          case Err(_) =>
        }
      }
      assert sigs[..|sigs|] == sigs;
      return Ok(txs);
    }

    /** `set_checkpoint` */
    method SetCheckpoint(signature: Option<string>)
      modifies this`checkpoint
      ensures GetCheckpoint() == signature
    {
      checkpoint := signature;
    }

    /** `get_checkpoint` */
    function GetCheckpoint(): Option<string>
      reads this
    {
      checkpoint
    }

    /** `progress`: nothing counted yet, never done, the checkpoint as last signature. */
    function Progress(): (p: FetchProgress)
      reads this
      ensures p.lastSignature == GetCheckpoint()
      ensures p.fetched == 0 && !p.done
    {
      FetchProgress(0, checkpoint, false)
    }
  }

  // ---------------------------------------------------------------------
  // Properties
  // ---------------------------------------------------------------------

  /** The query is made with the current checkpoint as cursor and the page size as limit. */
  lemma QueryUsesCheckpoint<Tx>(client: RpcOracle<Tx>, address: string, batchSize: nat, checkpoint: Option<string>)
    ensures client.signaturesFor(address, checkpoint, batchSize).Err? ==>
      NextBatch(client, address, batchSize, checkpoint) ==
        (Err(Rpc(client.signaturesFor(address, checkpoint, batchSize).error)), checkpoint)
    ensures client.signaturesFor(address, checkpoint, batchSize) == Ok([]) ==>
      NextBatch(client, address, batchSize, checkpoint) == (Ok([]), checkpoint)
  {
  }

  /** A non-empty page moves the checkpoint to its last signature; otherwise it stays. */
  lemma CheckpointRule<Tx>(client: RpcOracle<Tx>, address: string, batchSize: nat, checkpoint: Option<string>)
    ensures var page := client.signaturesFor(address, checkpoint, batchSize);
      NextBatch(client, address, batchSize, checkpoint).1 ==
        if page.Ok? && |page.value| > 0 then Some(page.value[|page.value| - 1]) else checkpoint
    ensures NextBatch(client, address, batchSize, checkpoint).0.Err? <==>
      client.signaturesFor(address, checkpoint, batchSize).Err?
  {
  }

  /** A batch is never longer than its page. */
  lemma BatchWithinPage<Tx>(client: RpcOracle<Tx>, address: string, batchSize: nat, checkpoint: Option<string>)
    requires client.signaturesFor(address, checkpoint, batchSize).Ok?
    ensures NextBatch(client, address, batchSize, checkpoint).0.Ok?
    ensures |NextBatch(client, address, batchSize, checkpoint).0.value| <=
      |client.signaturesFor(address, checkpoint, batchSize).value|
  {
  }

  /** Collecting over two pieces of a page is collecting over each piece, in order. */
  lemma {:induction false} SuccessfulAppend<Tx>(a: seq<string>, b: seq<string>, fetch: string -> Result<Tx, string>)
    ensures Successful(a + b, fetch) == Successful(a, fetch) + Successful(b, fetch)
    decreases |b|
  {
    if |b| > 0 {
      var b' := b[..|b| - 1];
      assert (a + b)[..|a + b| - 1] == a + b';
      assert (a + b)[|a + b| - 1] == b[|b| - 1];
      SuccessfulAppend(a, b', fetch);
    } else {
      assert a + b == a;
    }
  }

  /** When every fetch succeeds, the batch is every transaction, in page order. */
  lemma {:induction false} AllFetched<Tx>(sigs: seq<string>, fetch: string -> Result<Tx, string>)
    requires forall i :: 0 <= i < |sigs| ==> fetch(sigs[i]).Ok?
    ensures |Successful(sigs, fetch)| == |sigs|
    ensures forall i :: 0 <= i < |sigs| ==> Successful(sigs, fetch)[i] == fetch(sigs[i]).value
    decreases |sigs|
  {
    if |sigs| > 0 {
      var init := sigs[..|sigs| - 1];
      assert forall i :: 0 <= i < |init| ==> init[i] == sigs[i];
      AllFetched(init, fetch);
    }
  }

  /** When every fetch fails, the batch is empty. */
  lemma {:induction false} NoneFetched<Tx>(sigs: seq<string>, fetch: string -> Result<Tx, string>)
    requires forall i :: 0 <= i < |sigs| ==> fetch(sigs[i]).Err?
    ensures Successful(sigs, fetch) == []
    decreases |sigs|
  {
    if |sigs| > 0 {
      var init := sigs[..|sigs| - 1];
      assert forall i :: 0 <= i < |init| ==> init[i] == sigs[i];
      NoneFetched(init, fetch);
    }
  }

  /** Every transaction in a batch is the answer for one of the page's signatures. */
  lemma {:induction false} OnlyFetched<Tx>(sigs: seq<string>, fetch: string -> Result<Tx, string>, tx: Tx)
    requires tx in Successful(sigs, fetch)
    ensures exists i :: 0 <= i < |sigs| && fetch(sigs[i]) == Ok(tx)
    decreases |sigs|
  {
    var init := sigs[..|sigs| - 1];
    var last := sigs[|sigs| - 1];
    if tx in Successful(init, fetch) {
      OnlyFetched(init, fetch, tx);
      var i :| 0 <= i < |init| && fetch(init[i]) == Ok(tx);
      assert sigs[i] == init[i];
    } else {
      assert fetch(sigs[|sigs| - 1]) == Ok(tx);
    }
  }

  /** The first two characters of each error text tell the variants apart. */
  lemma DisplayTag(e: FetchError)
    ensures |Display(e)| >= 2
    ensures Display(e)[..2] == (match e
      case Rpc(_) => "RP"
      case RateLimited => "Ra"
      case Network(_) => "Ne"
      case Other(_) => "Ot")
  {
  }

  /** The text after a fixed prefix is the message. */
  lemma PrefixCancels(p: string, m1: string, m2: string)
    requires p + m1 == p + m2
    ensures m1 == m2
  {
    assert m1 == (p + m1)[|p|..];
    assert m2 == (p + m2)[|p|..];
  }

  /** Different errors have different texts. */
  lemma DisplayInjective(e1: FetchError, e2: FetchError)
    requires Display(e1) == Display(e2)
    ensures e1 == e2
  {
    DisplayTag(e1);
    DisplayTag(e2);
    match e1
    case Rpc(m) => PrefixCancels("RPC error: ", m, e2.message);
    case RateLimited =>
    case Network(m) => PrefixCancels("Network error: ", m, e2.message);
    case Other(m) => PrefixCancels("Other: ", m, e2.message);
  }

  /** The pages of the pagination example: two signatures, then one, then none. */
  function ExamplePages(address: string, before: Option<string>, limit: nat): Result<seq<string>, string> {
    if before == None then Ok(["sig1", "sig2"])
    else if before == Some("sig2") then Ok(["sig3"])
    else Ok([])
  }

  /** A client whose every transaction is its own signature. */
  function ExampleClient(): RpcOracle<string> {
    RpcOracle(ExamplePages, (s: string) => Ok(s))
  }

  /** Paging through the example: each page moves the cursor, and the last page is empty. */
  lemma PaginationExample()
    ensures NextBatch(ExampleClient(), "addr", 2, None) == (Ok(["sig1", "sig2"]), Some("sig2"))
    ensures NextBatch(ExampleClient(), "addr", 2, Some("sig2")) == (Ok(["sig3"]), Some("sig3"))
    ensures NextBatch(ExampleClient(), "addr", 2, Some("sig3")) == (Ok([]), Some("sig3"))
  {
    var client := ExampleClient();
    assert client.signaturesFor("addr", None, 2) == Ok(["sig1", "sig2"]);
    assert client.signaturesFor("addr", Some("sig2"), 2) == Ok(["sig3"]);
    assert client.signaturesFor("addr", Some("sig3"), 2) == Ok([]);
    var first := Successful(["sig1", "sig2"], client.transaction);
    AllFetched(["sig1", "sig2"], client.transaction);
    assert first[0] == "sig1" && first[1] == "sig2";
    assert first == ["sig1", "sig2"];
    var second := Successful(["sig3"], client.transaction);
    AllFetched(["sig3"], client.transaction);
    assert second[0] == "sig3";
    assert second == ["sig3"];
  }
}
