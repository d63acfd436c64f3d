/**
 Prefix sharding: a worklist splits any bucket that is too large by one more character of the
 normalised id, until every bucket fits. Cell entries and trace buckets are sharded the same way.
 */
module PrefixShards {
  import opened Ids
  import opened Sums

  const MIN_KEY_LEN: nat := 2
  const MAX_KEY_LEN: nat := 64
  const PAD: char := '_'

  const KELVIN_SIGN: char := '\U{212A}'

  /** Lower case: ASCII letters, and the one other character that becomes an ASCII letter by itself. */
  function Lower(c: char): char {
    if 'A' <= c <= 'Z' then (c as int - 'A' as int + 'a' as int) as char else if c == KELVIN_SIGN then 'k' else c
  }

  /** Lower case letters and digits stay, anything else becomes the pad. */
  function Normal(c: char): char {
    var l := Lower(c);
    if 'a' <= l <= 'z' || '0' <= l <= '9' then l else PAD
  }

  function KeyChar(id: Id, i: nat): char {
    if i < |id| then Normal(id[i]) else PAD
  }

  function ShardKey(id: Id, length: nat): (k: string)
    ensures |k| == length && forall i | 0 <= i < length :: k[i] == KeyChar(id, i)
    ensures forall i | |id| <= i < length :: k[i] == '_'
    ensures forall i | 0 <= i < length && i < |id| ::
              match id[i]
              case c =>
                if 'a' <= c <= 'z' || '0' <= c <= '9' then k[i] == c
                else if 'A' <= c <= 'Z' then 'a' <= k[i] <= 'z' && k[i] as int - 'a' as int == c as int - 'A' as int
                else if c == '\U{212A}' then k[i] == 'k'
                else k[i] == '_'
  {
    seq(length, i requires 0 <= i < length => KeyChar(id, i))
  }

  predicate Matches(id: Id, key: string) {
    ShardKey(id, |key|) == key
  }

  function Bucket(ids: set<Id>, key: string): set<Id> {
    set i | i in ids && Matches(i, key)
  }

  // ---- prefix-free keys ---------------------------------------------------------------------------

  /** The keys differ somewhere: neither is a prefix of the other. */
  ghost predicate Apart(p: string, q: string) {
    exists i :: 0 <= i < |p| && i < |q| && p[i] != q[i]
  }

  lemma ApartMeansNoPrefix(p: string, q: string)
    ensures Apart(p, q) <==> !(p <= q) && !(q <= p)
  {
    if !Apart(p, q) && |p| <= |q| { assert p <= q; }
    if !Apart(p, q) && |q| <= |p| { assert q <= p; }
  }

  lemma NotApartFromItself(p: string)
    ensures !Apart(p, p)
  {
  }

  lemma ExtensionStaysApart(p: string, q: string, k: string)
    requires Apart(p, q) && p <= k
    ensures Apart(k, q) && Apart(q, k)
  {
    var i :| 0 <= i < |p| && i < |q| && p[i] != q[i];
    assert k[i] == p[i];
  }

  /** Two keys that match one id are comparable. */
  lemma MatchesAreComparable(id: Id, p: string, q: string)
    requires Matches(id, p) && Matches(id, q) && |p| <= |q|
    ensures p <= q
  {
    forall i | 0 <= i < |p| ensures p[i] == q[i] {
      assert p[i] == KeyChar(id, i) == q[i];
    }
  }

  lemma ShorterMatches(id: Id, p: string, q: string)
    requires Matches(id, q) && p <= q
    ensures Matches(id, p)
  {
    forall i | 0 <= i < |p| ensures ShardKey(id, |p|)[i] == p[i] {
      assert q[i] == KeyChar(id, i);
    }
  }

  // ---- grouping -----------------------------------------------------------------------------------

  type Groups = map<string, set<Id>>

  ghost function Sizes(groups: Groups): map<string, int> {
    map k | k in groups :: |groups[k]|
  }

  /** How many ids the groups hold between them. */
  ghost function Total(groups: Groups): nat {
    SumNonNegative(Sizes(groups));
    Sum(Sizes(groups))
  }

  ghost predicate GroupAt(ids: set<Id>, length: nat, groups: Groups, k: string)
    requires k in groups
  {
    |k| == length && groups[k] == Bucket(ids, k) && groups[k] != {}
  }

  /** `groups` are the non-empty buckets of `ids` at one key length. */
  ghost predicate Grouped(ids: set<Id>, length: nat, groups: Groups) {
    && (forall k {:trigger GroupAt(ids, length, groups, k)} | k in groups :: GroupAt(ids, length, groups, k))
    && (forall i | i in ids :: ShardKey(i, length) in groups)
    && Total(groups) == |ids|
  }

  function Add(groups: Groups, k: string, i: Id): Groups {
    groups[k := (if k in groups then groups[k] else {}) + {i}]
  }

  lemma BucketAdd(ids: set<Id>, i: Id, k: string)
    ensures Bucket(ids + {i}, k) == if Matches(i, k) then Bucket(ids, k) + {i} else Bucket(ids, k)
  {
  }

  lemma OldBucket(ids: set<Id>, length: nat, groups: Groups, i: Id)
    requires Grouped(ids, length, groups)
    ensures var k := ShardKey(i, length); Bucket(ids, k) == if k in groups then groups[k] else {}
  {
    var k := ShardKey(i, length);
    if k in groups {
      assert GroupAt(ids, length, groups, k);
    } else {
      forall j | j in ids ensures !Matches(j, k) { assert ShardKey(j, length) in groups; }
    }
  }

  lemma AddSizes(groups: Groups, k: string, i: Id, n: nat)
    requires n == |if k in groups then groups[k] else {}| && (k in groups ==> i !in groups[k])
    ensures Sizes(Add(groups, k, i)) == Sizes(groups)[k := n + 1]
  {
    var after := Add(groups, k, i);
    assert |after[k]| == n + 1;
    assert Sizes(after) == Sizes(groups)[k := n + 1];
  }

  lemma GroupSizes(ids: set<Id>, length: nat, groups: Groups, i: Id)
    requires Grouped(ids, length, groups) && i !in ids
    ensures Total(Add(groups, ShardKey(i, length), i)) == |ids + {i}|
  {
    var k := ShardKey(i, length);
    OldBucket(ids, length, groups, i);
    AddSizes(groups, k, i, |Bucket(ids, k)|);
    SumUpdate(Sizes(groups), k, |Bucket(ids, k)| + 1);
  }

  lemma GroupStep(ids: set<Id>, length: nat, groups: Groups, i: Id)
    requires Grouped(ids, length, groups) && i !in ids
    ensures Grouped(ids + {i}, length, Add(groups, ShardKey(i, length), i))
  {
    var k := ShardKey(i, length);
    var after := Add(groups, k, i);
    GroupSizes(ids, length, groups, i);
    OldBucket(ids, length, groups, i);
    forall q | q in after ensures GroupAt(ids + {i}, length, after, q) {
      BucketAdd(ids, i, q);
      if q != k { assert GroupAt(ids, length, groups, q); }
    }
  }

  method GroupByKey(ids: set<Id>, length: nat) returns (groups: Groups)
    ensures Grouped(ids, length, groups)
  {
    groups := map[];
    var todo := ids;
    ghost var done: set<Id> := {};
    assert Sizes(groups) == map[];
    while todo != {}
      invariant done + todo == ids && done !! todo && Grouped(done, length, groups)
    {
      var i :| i in todo;
      GroupStep(done, length, groups, i);
      groups := Add(groups, ShardKey(i, length), i);
      done, todo := done + {i}, todo - {i};
    }
  }

  // ---- the worklist -------------------------------------------------------------------------------

  datatype Job = Job(length: nat, ids: set<Id>)

  predicate TooLarge(bytes: set<Id> -> nat, limit: nat, length: nat, ids: set<Id>) {
    length < MAX_KEY_LEN && |ids| > 1 && bytes(ids) > limit
  }

  /** An upper bound on the work a queue still holds. */
  ghost function Potential(queue: seq<Job>): nat {
    if queue == [] then 0
    else
      var j := queue[|queue| - 1];
      Potential(queue[..|queue| - 1]) + Work(j.length, |j.ids|)
  }

  ghost function Work(length: nat, n: nat): nat { Debt(length, n) + 1 }

  /** `n` ids, each of which can still be split once per remaining key length. */
  ghost function Debt(length: nat, n: nat): nat {
    if n == 0 || length > MAX_KEY_LEN then 0 else Debt(length, n - 1) + (MAX_KEY_LEN + 1 - length)
  }

  lemma {:induction false} DebtSplits(length: nat, m: nat, n: nat)
    ensures Debt(length, m + n) == Debt(length, m) + Debt(length, n)
  {
    if n > 0 { DebtSplits(length, m, n - 1); }
  }

  lemma {:induction false} DebtShrinks(length: nat, n: nat)
    requires length < MAX_KEY_LEN
    ensures Debt(length + 1, n) + n == Debt(length, n)
  {
    if n > 0 { DebtShrinks(length, n - 1); }
  }

  /** Every id is in exactly one job or leaf: their keys are prefix-free and some key matches each id. */
  ghost predicate Partition(all: set<Id>, queue: seq<Job>, keys: seq<string>, open: set<string>, leaves: Groups) {
    && |keys| == |queue|
    && (forall a | 0 <= a < |queue| :: JobHolds(all, queue[a], keys[a]))
    && (forall k | k in leaves :: leaves[k] == Bucket(all, k))
    && PrefixFree(keys, open, leaves.Keys)
    && (forall i {:trigger Covered(keys, open, leaves.Keys, i)} | i in all :: Covered(keys, open, leaves.Keys, i))
  }

  ghost predicate JobHolds(all: set<Id>, j: Job, key: string) {
    j.ids == Bucket(all, key) && |key| < j.length <= MAX_KEY_LEN && j.length >= MIN_KEY_LEN
  }

  ghost predicate PrefixFree(keys: seq<string>, open: set<string>, done: set<string>) {
    && (forall a, b | 0 <= a < b < |keys| :: Apart(keys[a], keys[b]))
    && (forall a, k | 0 <= a < |keys| && k in open + done :: Apart(keys[a], k))
    && (forall p, q | p in open + done && q in open + done && p != q :: Apart(p, q))
    && open !! done
  }

  ghost predicate Covered(keys: seq<string>, open: set<string>, done: set<string>, i: Id) {
    || (exists a :: 0 <= a < |keys| && Matches(i, keys[a]))
    || (exists k :: k in open + done && Matches(i, k))
  }

  /** No leaf should have been split: it fits, is a single id, or is at the maximum key length. */
  ghost predicate LeafFits(bytes: set<Id> -> nat, limit: nat, k: string, ids: set<Id>) {
    ids != {} && MIN_KEY_LEN <= |k| <= MAX_KEY_LEN && !TooLarge(bytes, limit, |k|, ids)
  }

  ghost predicate Fits(bytes: set<Id> -> nat, limit: nat, leaves: Groups) {
    forall k {:trigger LeafFits(bytes, limit, k, leaves[k])} | k in leaves :: LeafFits(bytes, limit, k, leaves[k])
  }

  // ---- no bucket is split that need not be ----------------------------------------------------------

  ghost predicate Oversize(all: set<Id>, bytes: set<Id> -> nat, limit: nat, p: string) {
    |Bucket(all, p)| > 1 && bytes(Bucket(all, p)) > limit
  }

  /** Every bucket on the way to this key had to be split: it holds several ids and more bytes than the limit. */
  ghost predicate KeyNeeded(all: set<Id>, bytes: set<Id> -> nat, limit: nat, k: string) {
    forall n | 2 <= n < |k| :: Oversize(all, bytes, limit, k[..n])
  }

  /** So did this one, unless it is where the splitting starts. */
  ghost predicate JobNeeded(all: set<Id>, bytes: set<Id> -> nat, limit: nat, j: Job, key: string) {
    && (j.length == |key| + 1 || (key == "" && j.length == MIN_KEY_LEN))
    && KeyNeeded(all, bytes, limit, key) && (|key| >= MIN_KEY_LEN ==> Oversize(all, bytes, limit, key))
  }

  ghost predicate Needed(all: set<Id>, bytes: set<Id> -> nat, limit: nat, queue: seq<Job>, keys: seq<string>,
                         open: set<string>, done: set<string>) {
    && |keys| == |queue| && (forall a | 0 <= a < |queue| :: JobNeeded(all, bytes, limit, queue[a], keys[a]))
    && (forall k | k in open :: KeyNeeded(all, bytes, limit, k))
    && (forall k | k in done :: KeyNeeded(all, bytes, limit, k))
  }

  lemma SubBucketIsNeeded(all: set<Id>, bytes: set<Id> -> nat, limit: nat, j: Job, key: string, k: string)
    requires JobNeeded(all, bytes, limit, j, key) && key <= k && |k| == j.length
    ensures KeyNeeded(all, bytes, limit, k)
  {
    forall n | MIN_KEY_LEN <= n < |k| ensures Oversize(all, bytes, limit, k[..n]) {
      assert k[..n] == if n == |key| then key else key[..n];
    }
  }

  /** The sub-buckets of a job are whole buckets of the population, and extend the job's key. */
  lemma SubBuckets(all: set<Id>, j: Job, key: string, groups: Groups, k: string)
    requires JobHolds(all, j, key) && Grouped(j.ids, j.length, groups) && k in groups
    ensures |k| == j.length && key <= k && groups[k] == Bucket(all, k)
  {
    assert GroupAt(j.ids, j.length, groups, k);
    var i :| i in groups[k];
    MatchesAreComparable(i, key, k);
    forall x | x in Bucket(all, k) ensures x in j.ids { ShorterMatches(x, key, k); }
  }

  lemma OpenKeepsPrefixFree(keys: seq<string>, done: set<string>, open: set<string>, length: nat)
    requires keys != [] && PrefixFree(keys, {}, done)
    requires forall k | k in open :: |k| == length && keys[|keys| - 1] <= k
    ensures PrefixFree(keys[..|keys| - 1], open, done)
  {
    var n := |keys| - 1;
    var key := keys[n];
    assert {} + done == done;
    forall a, k | 0 <= a < n && k in done ensures Apart(keys[a], k) {
      assert k in {} + done;
    }
    forall a, k | 0 <= a < n && k in open ensures Apart(keys[a], k) {
      assert Apart(keys[a], key);
      assert Apart(key, keys[a]) by { var i :| 0 <= i < |keys[a]| && i < |key| && keys[a][i] != key[i]; }
      ExtensionStaysApart(key, keys[a], k);
    }
    forall k, q | k in open && q in done ensures Apart(k, q) && Apart(q, k) {
      assert q in {} + done;
      ExtensionStaysApart(key, q, k);
    }
    forall p, q | p in open && q in open && p != q ensures Apart(p, q) {
      ApartMeansNoPrefix(p, q);
    }
    forall p, q | p in done && q in done && p != q ensures Apart(p, q) {
      assert p in {} + done && q in {} + done;
    }
    forall k | k in open ensures k !in done {
      NotApartFromItself(k);
    }
  }

  lemma OpenCovers(all: set<Id>, j: Job, keys: seq<string>, done: set<string>, groups: Groups, i: Id)
    requires keys != [] && JobHolds(all, j, keys[|keys| - 1]) && Grouped(j.ids, j.length, groups)
    requires i in all && Covered(keys, {}, done, i)
    ensures Covered(keys[..|keys| - 1], groups.Keys, done, i)
  {
    if exists k :: k in {} + done && Matches(i, k) {
      var k :| k in {} + done && Matches(i, k);
      assert k in groups.Keys + done;
    } else {
      var a :| 0 <= a < |keys| && Matches(i, keys[a]);
      if a < |keys| - 1 {
        assert keys[..|keys| - 1][a] == keys[a];
      } else {
        SelfMatches(i, j.length);
        assert i in j.ids;
        assert ShardKey(i, j.length) in groups.Keys + done;
      }
    }
  }

  lemma SelfMatches(i: Id, length: nat)
    ensures Matches(i, ShardKey(i, length))
  {
  }

  lemma OpenBuckets(all: set<Id>, j: Job, key: string, groups: Groups)
    requires JobHolds(all, j, key) && Grouped(j.ids, j.length, groups)
    ensures forall k | k in groups :: |k| == j.length && key <= k && groups[k] == Bucket(all, k)
  {
    forall k | k in groups ensures |k| == j.length && key <= k && groups[k] == Bucket(all, k) {
      SubBuckets(all, j, key, groups, k);
    }
  }

  /** Taking a job off the queue opens its sub-buckets in place of its own key. */
  lemma OpenJob(all: set<Id>, queue: seq<Job>, keys: seq<string>, leaves: Groups, groups: Groups)
    requires queue != [] && Partition(all, queue, keys, {}, leaves)
    requires Grouped(queue[|queue| - 1].ids, queue[|queue| - 1].length, groups)
    ensures Partition(all, queue[..|queue| - 1], keys[..|keys| - 1], groups.Keys, leaves)
    ensures forall k | k in groups :: |k| == queue[|queue| - 1].length && groups[k] == Bucket(all, k)
  {
    var n := |queue| - 1;
    var key, j, keys', queue' := keys[n], queue[n], keys[..n], queue[..n];
    assert JobHolds(all, j, key);
    OpenBuckets(all, j, key, groups);
    OpenKeepsPrefixFree(keys, leaves.Keys, groups.Keys, j.length);
    assert keys[..|keys| - 1] == keys';
    assert PrefixFree(keys', groups.Keys, leaves.Keys);
    forall i | i in all ensures Covered(keys', groups.Keys, leaves.Keys, i) {
      assert Covered(keys, {}, leaves.Keys, i);
      OpenCovers(all, j, keys, leaves.Keys, groups, i);
    }
    forall a | 0 <= a < n ensures JobHolds(all, queue'[a], keys'[a]) {
      assert JobHolds(all, queue[a], keys[a]);
    }
    assert Partition(all, queue', keys', groups.Keys, leaves);
  }

  lemma PushKeepsPrefixFree(keys: seq<string>, open: set<string>, done: set<string>, k: string)
    requires PrefixFree(keys, open, done) && k in open
    ensures PrefixFree(keys + [k], open - {k}, done)
  {
    assert k in open + done;
    forall a, b | 0 <= a < b < |keys + [k]| ensures Apart((keys + [k])[a], (keys + [k])[b]) {
      assert Apart(keys[a], if b == |keys| then k else keys[b]);
    }
    forall p | p in open - {k} + done ensures p in open + done && p != k {}
    forall a, p | 0 <= a < |keys + [k]| && p in open - {k} + done ensures Apart((keys + [k])[a], p) {
      assert p in open + done;
      assert Apart(if a == |keys| then k else keys[a], p);
    }
  }

  lemma PushCovers(keys: seq<string>, open: set<string>, done: set<string>, k: string, i: Id)
    requires Covered(keys, open, done, i)
    ensures Covered(keys + [k], open - {k}, done, i)
  {
    if a :| 0 <= a < |keys| && Matches(i, keys[a]) {
      assert (keys + [k])[a] == keys[a];
    } else {
      var q :| q in open + done && Matches(i, q);
      if q == k { assert (keys + [k])[|keys|] == k; } else { assert q in (open - {k}) + done; }
    }
  }

  lemma PushOpen(all: set<Id>, queue: seq<Job>, keys: seq<string>, open: set<string>, leaves: Groups, k: string)
    requires Partition(all, queue, keys, open, leaves) && k in open && MIN_KEY_LEN <= |k| < MAX_KEY_LEN
    ensures Partition(all, queue + [Job(|k| + 1, Bucket(all, k))], keys + [k], open - {k}, leaves)
  {
    var queue', keys' := queue + [Job(|k| + 1, Bucket(all, k))], keys + [k];
    PushKeepsPrefixFree(keys, open, leaves.Keys, k);
    forall i | i in all ensures Covered(keys', open - {k}, leaves.Keys, i) {
      assert Covered(keys, open, leaves.Keys, i);
      PushCovers(keys, open, leaves.Keys, k, i);
    }
    forall a | 0 <= a < |queue'| ensures JobHolds(all, queue'[a], keys'[a]) {
      if a < |queue| { assert JobHolds(all, queue[a], keys[a]); }
    }
  }

  lemma CloseOpen(all: set<Id>, queue: seq<Job>, keys: seq<string>, open: set<string>, leaves: Groups, k: string)
    requires Partition(all, queue, keys, open, leaves) && k in open
    ensures Partition(all, queue, keys, open - {k}, leaves[k := Bucket(all, k)])
  {
    assert (open - {k}) + (leaves.Keys + {k}) == open + leaves.Keys;
    assert leaves[k := Bucket(all, k)].Keys == leaves.Keys + {k};
    forall i | i in all ensures Covered(keys, open - {k}, leaves.Keys + {k}, i) {
      assert Covered(keys, open, leaves.Keys, i);
    }
  }

  /** Splits until every bucket fits; `bytes` is the size of a bucket's serialised form. */
  method Split(all: set<Id>, bytes: set<Id> -> nat, limit: nat) returns (leaves: Groups)
    ensures Sharding(all, leaves) && Fits(bytes, limit, leaves)
    ensures forall k | k in leaves :: leaves[k] != {} && 2 <= |k| <= 64
    ensures forall k | k in leaves :: bytes(leaves[k]) <= limit || |leaves[k]| == 1 || |k| == 64
    ensures forall k | k in leaves :: KeyNeeded(all, bytes, limit, k)
  {
    leaves := map[];
    var queue := [Job(MIN_KEY_LEN, all)];
    ghost var keys := [""];
    StartPartition(all);
    while queue != []
      invariant Partition(all, queue, keys, {}, leaves) && Fits(bytes, limit, leaves)
      invariant Needed(all, bytes, limit, queue, keys, {}, leaves.Keys)
      decreases Potential(queue)
    {
      queue, keys, leaves := SplitLast(all, bytes, limit, queue, keys, leaves);
    }
    SplitIsSharding(all, keys, leaves);
    SplitWasNeeded(all, bytes, limit, keys, leaves);
  }

  /** One turn of the worklist: the last job's bucket by one more character. */
  method SplitLast(ghost all: set<Id>, bytes: set<Id> -> nat, limit: nat, queue0: seq<Job>, ghost keys0: seq<string>,
                   leaves0: Groups)
    returns (queue: seq<Job>, ghost keys: seq<string>, leaves: Groups)
    requires queue0 != [] && Partition(all, queue0, keys0, {}, leaves0) && Fits(bytes, limit, leaves0)
    requires Needed(all, bytes, limit, queue0, keys0, {}, leaves0.Keys)
    ensures Partition(all, queue, keys, {}, leaves) && Fits(bytes, limit, leaves)
    ensures Needed(all, bytes, limit, queue, keys, {}, leaves.Keys)
    ensures Potential(queue) < Potential(queue0)
  {
    var job := queue0[|queue0| - 1];
    assert JobHolds(all, job, keys0[|queue0| - 1]);
    var groups := GroupByKey(job.ids, job.length);
    OpenJob(all, queue0, keys0, leaves0, groups);
    OpenIsNeeded(all, bytes, limit, queue0, keys0, groups, leaves0.Keys);
    queue, keys, leaves := FileBuckets(all, bytes, limit, job, groups, queue0[..|queue0| - 1],
                                       keys0[..|keys0| - 1], leaves0);
  }

  lemma OpenIsNeeded(all: set<Id>, bytes: set<Id> -> nat, limit: nat, queue: seq<Job>, keys: seq<string>,
                     groups: Groups, done: set<string>)
    requires queue != [] && Needed(all, bytes, limit, queue, keys, {}, done)
    requires var j, key := queue[|queue| - 1], keys[|queue| - 1];
      JobHolds(all, j, key) && Grouped(j.ids, j.length, groups)
    ensures Needed(all, bytes, limit, queue[..|queue| - 1], keys[..|keys| - 1], groups.Keys, done)
  {
    var j, key := queue[|queue| - 1], keys[|queue| - 1];
    forall k | k in groups ensures KeyNeeded(all, bytes, limit, k) {
      SubBuckets(all, j, key, groups, k);
      SubBucketIsNeeded(all, bytes, limit, j, key, k);
    }
  }

  lemma SplitIsSharding(all: set<Id>, keys: seq<string>, leaves: Groups)
    requires Partition(all, [], keys, {}, leaves)
    ensures Sharding(all, leaves)
  {
    forall i | i in all ensures exists k :: k in leaves && Matches(i, k) {
      assert Covered(keys, {}, leaves.Keys, i);
    }
    forall p, q | p in leaves && q in leaves && p != q ensures Apart(p, q) {
      assert p in {} + leaves.Keys && q in {} + leaves.Keys;
    }
  }

  lemma SplitWasNeeded(all: set<Id>, bytes: set<Id> -> nat, limit: nat, keys: seq<string>, leaves: Groups)
    requires Fits(bytes, limit, leaves) && Needed(all, bytes, limit, [], keys, {}, leaves.Keys)
    ensures forall k | k in leaves :: leaves[k] != {} && 2 <= |k| <= 64
    ensures forall k | k in leaves :: bytes(leaves[k]) <= limit || |leaves[k]| == 1 || |k| == 64
    ensures forall k | k in leaves :: KeyNeeded(all, bytes, limit, k)
  {
    forall k | k in leaves ensures LeafFits(bytes, limit, k, leaves[k]) && |leaves[k]| > 0 {
      assert LeafFits(bytes, limit, k, leaves[k]);
    }
  }

  /** Each sub-bucket of a job is queued for another split or becomes a leaf. */
  method FileBuckets(ghost all: set<Id>, bytes: set<Id> -> nat, limit: nat, job: Job, groups: Groups,
                     queue0: seq<Job>, ghost keys0: seq<string>, leaves0: Groups)
    returns (queue: seq<Job>, ghost keys: seq<string>, leaves: Groups)
    requires Partition(all, queue0, keys0, groups.Keys, leaves0) && Fits(bytes, limit, leaves0)
    requires MIN_KEY_LEN <= job.length <= MAX_KEY_LEN && Grouped(job.ids, job.length, groups)
    requires forall k | k in groups :: |k| == job.length && groups[k] == Bucket(all, k)
    requires Needed(all, bytes, limit, queue0, keys0, groups.Keys, leaves0.Keys)
    ensures Partition(all, queue, keys, {}, leaves) && Fits(bytes, limit, leaves)
    ensures Needed(all, bytes, limit, queue, keys, {}, leaves.Keys)
    ensures Potential(queue) < Potential(queue0) + Work(job.length, |job.ids|)
  {
    queue, keys, leaves := queue0, keys0, leaves0;
    var rest := groups;
    ghost var bound := Potential(queue0) + Work(job.length, |job.ids|) - 1;
    forall k | k in groups ensures groups[k] != {} { assert GroupAt(job.ids, job.length, groups, k); }
    while rest != map[]
      invariant Partition(all, queue, keys, rest.Keys, leaves) && Fits(bytes, limit, leaves)
      invariant Needed(all, bytes, limit, queue, keys, rest.Keys, leaves.Keys)
      invariant WholeBuckets(all, job.length, rest)
      invariant Paid(queue, Total(rest), job.length, bound)
      decreases |rest|
    {
      var k :| k in rest;
      Unfile(rest, k);
      queue, keys, leaves := FileBucket(all, bytes, limit, k, rest[k], queue, keys, rest.Keys, leaves,
                                        Total(rest), Total(rest - {k}), job.length, bound);
      OtherBuckets(all, job.length, rest, k);
      rest := rest - {k};
    }
  }

  ghost predicate WholeBuckets(all: set<Id>, length: nat, groups: Groups) {
    forall k | k in groups :: |k| == length && groups[k] == Bucket(all, k) && groups[k] != {}
  }

  lemma OtherBuckets(all: set<Id>, length: nat, groups: Groups, k: string)
    requires WholeBuckets(all, length, groups)
    ensures WholeBuckets(all, length, groups - {k})
  {
  }

  method FileBucket(ghost all: set<Id>, bytes: set<Id> -> nat, limit: nat, k: string, ids: set<Id>,
                    queue0: seq<Job>, ghost keys0: seq<string>, ghost open: set<string>, leaves0: Groups,
                    ghost unfiled: nat, ghost left: nat, ghost length: nat, ghost bound: int)
    returns (queue: seq<Job>, ghost keys: seq<string>, leaves: Groups)
    requires Partition(all, queue0, keys0, open, leaves0) && Fits(bytes, limit, leaves0) && k in open
    requires MIN_KEY_LEN <= |k| <= MAX_KEY_LEN && ids == Bucket(all, k) && ids != {}
    requires |k| == length && unfiled == |ids| + left && Paid(queue0, unfiled, length, bound)
    requires Needed(all, bytes, limit, queue0, keys0, open, leaves0.Keys)
    ensures Partition(all, queue, keys, open - {k}, leaves) && Fits(bytes, limit, leaves)
    ensures Paid(queue, left, length, bound)
    ensures Needed(all, bytes, limit, queue, keys, open - {k}, leaves.Keys)
  {
    if TooLarge(bytes, limit, |k|, ids) {
      PushOpen(all, queue0, keys0, open, leaves0, k);
      PushKeepsPaid(queue0, unfiled, left, length, bound, ids);
      return queue0 + [Job(|k| + 1, ids)], keys0 + [k], leaves0;
    } else {
      CloseOpen(all, queue0, keys0, open, leaves0, k);
      LeafKeepsPaid(queue0, unfiled, left, length, bound, |ids|);
      leaves := leaves0[k := ids];
      forall q | q in leaves ensures LeafFits(bytes, limit, q, leaves[q]) {
        if q != k { assert LeafFits(bytes, limit, q, leaves0[q]); }
      }
      return queue0, keys0, leaves;
    }
  }

  ghost predicate Paid(queue: seq<Job>, unfiled: nat, length: nat, bound: int) {
    Potential(queue) + Debt(length, unfiled) <= bound
  }

  lemma LeafKeepsPaid(queue: seq<Job>, unfiled: nat, left: nat, length: nat, bound: int, n: nat)
    requires unfiled == n + left && Paid(queue, unfiled, length, bound)
    ensures Paid(queue, left, length, bound)
  {
    DebtSplits(length, left, n);
  }

  /** Pushing a bucket one level down costs no more than the bucket was worth. */
  lemma PushKeepsPaid(queue: seq<Job>, unfiled: nat, left: nat, length: nat, bound: int, ids: set<Id>)
    requires ids != {} && unfiled == |ids| + left && length < MAX_KEY_LEN && Paid(queue, unfiled, length, bound)
    ensures Paid(queue + [Job(length + 1, ids)], left, length, bound)
  {
    DebtSplits(length, left, |ids|);
    DebtShrinks(length, |ids|);
    assert (queue + [Job(length + 1, ids)])[..|queue|] == queue;
  }

  lemma Unfile(rest: Groups, k: string)
    requires k in rest
    ensures Total(rest) == |rest[k]| + Total(rest - {k})
    ensures (rest - {k}).Keys == rest.Keys - {k}
    ensures forall q | q in rest - {k} :: q in rest && (rest - {k})[q] == rest[q]
  {
    SumRemove(Sizes(rest), k);
    assert Sizes(rest) - {k} == Sizes(rest - {k});
  }

  lemma StartPartition(all: set<Id>)
    ensures Partition(all, [Job(MIN_KEY_LEN, all)], [""], {}, map[])
  {
    var empty: Groups := map[];
    forall i | i in all ensures Covered([""], {}, empty.Keys, i) {
      assert Matches(i, [""][0]);
    }
    assert Bucket(all, "") == all;
  }

  // ---- what the sharding promises -----------------------------------------------------------------

  /** Whole buckets under prefix-free keys, one of which matches each id. */
  ghost predicate Sharding(all: set<Id>, leaves: Groups) {
    && (forall k | k in leaves :: leaves[k] == Bucket(all, k))
    && (forall p, q | p in leaves && q in leaves && p != q :: Apart(p, q))
    && (forall i | i in all :: exists k :: k in leaves && Matches(i, k))
  }

  /** The leaves partition the ids. */
  lemma LeavesPartition(all: set<Id>, leaves: Groups, i: Id)
    requires Sharding(all, leaves) && i in all
    ensures exists k :: k in leaves && i in leaves[k]
    ensures forall p, q | p in leaves && q in leaves && i in leaves[p] && i in leaves[q] :: p == q
  {
    var k :| k in leaves && Matches(i, k);
    assert i in leaves[k];
    forall p, q | p in leaves && q in leaves && i in leaves[p] && i in leaves[q] ensures p == q {
      OneKeyMatches(leaves, i, p, q);
    }
  }

  /** For any id, known or not, at most one leaf key prefixes its normalised form. */
  lemma OneKeyMatches(leaves: Groups, i: Id, p: string, q: string)
    requires p in leaves && q in leaves && Matches(i, p) && Matches(i, q)
    requires forall r, s | r in leaves && s in leaves && r != s :: Apart(r, s)
    ensures p == q
  {
    if |p| <= |q| { MatchesAreComparable(i, p, q); } else { MatchesAreComparable(i, q, p); }
    ApartMeansNoPrefix(p, q);
  }

  /** Looking for the longest matching key, first down from the id's own length, then up through padding. */
  method Lookup(leaves: Groups, minLen: nat, maxLen: nat, id: Id) returns (found: bool, key: string)
    requires forall k | k in leaves :: minLen <= |k| <= maxLen
    ensures found ==> key in leaves && Matches(id, key)
    ensures found ==> forall k | k in leaves && Matches(id, k) && (|k| <= |id| || |k| == minLen) :: |k| <= |key|
    ensures !found ==> forall k | k in leaves :: !Matches(id, k)
  {
    var top := Longest(id, minLen, maxLen);
    var n := top;
    while n >= minLen
      invariant n <= top
      invariant forall k | k in leaves && n < |k| <= top :: !Matches(id, k)
      decreases n
    {
      if ShardKey(id, n) in leaves {
        return true, ShardKey(id, n);
      }
      if n == 0 { break; }
      n := n - 1;
    }
    n := top + 1;
    while n <= maxLen
      invariant top < n && forall k | k in leaves && |k| < n :: !Matches(id, k)
    {
      if ShardKey(id, n) in leaves {
        return true, ShardKey(id, n);
      }
      n := n + 1;
    }
    return false, "";
  }

  function Longest(id: Id, minLen: nat, maxLen: nat): nat {
    var own := if |id| > minLen then |id| else minLen;
    if maxLen < own then maxLen else own
  }

  /** The longest leaf key that prefixes an id's normalised form names the leaf holding it. */
  lemma LookupIsCorrect(all: set<Id>, leaves: Groups, i: Id, key: string)
    requires Sharding(all, leaves) && i in all
    requires key in leaves && Matches(i, key)
    ensures i in leaves[key]
    ensures forall k | k in leaves && k != key :: i !in leaves[k] && !Matches(i, k)
  {
    forall k | k in leaves && k != key ensures !Matches(i, k) {
      if Matches(i, k) { OneKeyMatches(leaves, i, k, key); }
    }
  }
}
