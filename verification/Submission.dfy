/** From a job to a submitted block: the miner rolls extranonce and nonce, the
    server rebuilds the header, and the block it submits commits to its own
    transactions. */
module Submission {
  import opened Basics
  import opened Header
  import M = Merkle

  /** A notify, and the extranonce a connection was given. `fields` holds all
      but the Merkle root and the nonce. */
  datatype Job = Job(coinb1: Bytes, extranonce1: Bytes, size: nat, coinb2: Bytes, branch: seq<nat>, fields: Fields)

  /** The extranonce as it is submitted: two digits a byte. */
  function Extranonce2(job: Job, x: nat): Bytes {
    var text := HexDigits(x, 2 * job.size);
    CleanDecodes(text);
    FromHex(text).value
  }

  function CoinbaseOf(job: Job, x: nat): Bytes {
    job.coinb1 + (job.extranonce1 + (Extranonce2(job, x) + job.coinb2))
  }

  function RootOf(hash: Bytes -> Bytes, job: Job, x: nat): Bytes {
    M.Fold(hash, hash(CoinbaseOf(job, x)), job.branch, |job.branch|)
  }

  function FieldsOf(hash: Bytes -> Bytes, job: Job, x: nat): Fields {
    job.fields.(root := RootOf(hash, job, x))
  }

  predicate PlainJob(job: Job) {
    var f := job.fields;
    Clean(f.version, 8) && Clean(f.prevhash, 64) && Clean(f.ntime, 8) && Clean(f.nbits, 8)
  }

  lemma {:induction false} FoldLength(hash: Bytes -> Bytes, leaf: Bytes, branch: seq<nat>, n: nat)
    requires M.Digest(hash) && |leaf| == 32 && n <= |branch|
    ensures |M.Fold(hash, leaf, branch, n)| == 32
    decreases n
  {
    if n > 0 {
      FoldLength(hash, leaf, branch, n - 1);
    }
  }

  lemma FieldsArePlain(hash: Bytes -> Bytes, job: Job, x: nat, nonce: string)
    requires M.Digest(hash)
    ensures Plain(FieldsOf(hash, job, x).(nonce := nonce)) <==> PlainJob(job) && Clean(nonce, 8)
  {
    FoldLength(hash, hash(CoinbaseOf(job, x)), job.branch, |job.branch|);
  }

  /** The miner submits extranonce `x` with this nonce. */
  ghost predicate MinerFinds(hash: Bytes -> Bytes, job: Job, x: nat, nonce: nat, target: nat) {
    MinerMeets(hash, FieldsOf(hash, job, x), nonce, target)
  }

  /** The server accepts the share with extranonce `x` and this nonce. */
  ghost predicate ShareMeets(hash: Bytes -> Bytes, job: Job, x: nat, nonce: nat, target: nat) {
    ServerMeets(hash, FieldsOf(hash, job, x), nonce, target)
  }

  /** No nonce makes extranonce `x` a share: for the miner, or, for a plain job,
      for the server. */
  ghost predicate NoneMeets(hash: Bytes -> Bytes, job: Job, x: nat, target: nat) {
    forall nonce: nat :: nonce < 0x1_0000_0000 ==>
      && !MinerFinds(hash, job, x, nonce, target)
      && (PlainJob(job) ==> !ShareMeets(hash, job, x, nonce, target))
  }

  /** The miner can build the job's header. */
  ghost predicate Decodes(hash: Bytes -> Bytes, job: Job, x: nat) {
    MinerHeader(Blank(FieldsOf(hash, job, x))).Some?
  }

  /** What the miner hashes is what the server rebuilds from its share if and
      only if the job is plain. */
  lemma JobRebuildsExactly(hash: Bytes -> Bytes, job: Job, x: nat, nonce: nat)
    requires M.Digest(hash) && Decodes(hash, job, x) && nonce < 0x1_0000_0000
    ensures Rebuilds(FieldsOf(hash, job, x), nonce) <==> PlainJob(job)
  {
    RebuildsExactly(FieldsOf(hash, job, x), nonce);
    FieldsArePlain(hash, job, x, ZERO);
  }

  method TryExtranonce(hash: Bytes -> Bytes, job: Job, x: nat, target: nat, expired: nat -> bool)
    returns (r: Search<nat>)
    requires forall data :: |hash(data)| == 32
    ensures r.Raised? <==> !Decodes(hash, job, x)
    ensures r.Found? ==> r.value < 0x1_0000_0000 && MinerFinds(hash, job, x, r.value, target)
    ensures PlainJob(job) ==> !r.Raised? && (r.Found? ==> ShareMeets(hash, job, x, r.value, target))
    ensures r.InVain? && (forall k :: !expired(k)) ==> NoneMeets(hash, job, x, target)
  {
    FieldsArePlain(hash, job, x, ZERO);
    r := SolveShare(hash, FieldsOf(hash, job, x), target, expired);
  }

  /** Nor does any make one of the first `count` extranonces a share. */
  ghost predicate NoShare(hash: Bytes -> Bytes, job: Job, count: nat, target: nat) {
    count == 0 || (NoShare(hash, job, count - 1, target) && NoneMeets(hash, job, count - 1, target))
  }

  /** The deadline, as each extranonce's checks see it. */
  ghost predicate Never(late: nat -> bool, expired: nat -> (nat -> bool)) {
    (forall x :: !late(x)) && forall x, k :: !expired(x)(k)
  }

  /** Every extranonce and nonce, in order, until a share meets the target or
      the deadline passes, before an extranonce or at a check within one. */
  method SolveJob(hash: Bytes -> Bytes, job: Job, count: nat, target: nat, late: nat -> bool,
      expired: nat -> (nat -> bool))
    returns (r: Search<(nat, nat)>)
    requires forall data :: |hash(data)| == 32
    ensures r.Raised? ==> exists x: nat :: x < count && !Decodes(hash, job, x)
    ensures r.Found? ==>
              && r.value.0 < count && r.value.1 < 0x1_0000_0000
              && MinerFinds(hash, job, r.value.0, r.value.1, target)
    ensures PlainJob(job) ==>
              !r.Raised? && (r.Found? ==> ShareMeets(hash, job, r.value.0, r.value.1, target))
    ensures r.InVain? && Never(late, expired) ==> NoShare(hash, job, count, target)
  {
    var x := 0;
    while x < count && !late(x)
      invariant x <= count
      invariant Never(late, expired) ==> NoShare(hash, job, x, target)
    {
      var nonce := TryExtranonce(hash, job, x, target, expired(x));
      match nonce
      case Raised => return Raised;
      case Found(n) => return Found((x, n));
      case InVain => x := x + 1;
    }
    return InVain;
  }

  lemma HeaderHoldsRoot(f: Fields)
    requires Plain(f)
    ensures CodecHeader(f).Some? && |CodecHeader(f).value| == 80 && CodecHeader(f).value[36..68] == f.root
  {
    PlainIsNumeric(f);
    CodecLayout(f);
    NumericLayoutIs(f, IntHex(f.nonce));
  }

  /** The block submitted for a share, its root read back from the header the
      server rebuilt, commits to its own transactions. */
  lemma SubmittedBlockCommits(hash: Bytes -> Bytes, template: seq<Bytes>, job: Job, x: nat, nonce: nat)
    requires M.Digest(hash) && PlainJob(job) && template != []
    requires job.branch == M.Branch(hash, M.Txids(hash, template))
    ensures var h := CodecHeader(FieldsOf(hash, job, x).(nonce := HexDigits(nonce, 8)));
            && h.Some? && |h.value| == 80
            && M.Commits(hash, M.Submission(template, CoinbaseOf(job, x), h.value[36..68]))
  {
    FieldsArePlain(hash, job, x, HexDigits(nonce, 8));
    HeaderHoldsRoot(FieldsOf(hash, job, x).(nonce := HexDigits(nonce, 8)));
    M.SubmissionCommits(hash, template, CoinbaseOf(job, x));
  }
}
