/** The tag caps and key rules admission enforces, and why they leave room for the provider's own tags. */
module TagValidation {
  import opened Tags
  import ClusterTags

  const MAX_TAG_KEY_LENGTH := 128
  const MAX_TAG_VALUE_LENGTH := 255
  const MAX_NODE_POOL_TAGS := 8
  const MAX_NODE_POOL_ADDITIONAL_TAGS := MAX_NODE_POOL_TAGS - 2
  const NODE_POOL_RESERVED_PREFIXES := ["CCE-", "__type_baremetal"]

  /** The character classes of Go's `unicode` and `regexp` packages the rules refer to. */
  datatype Classes = Classes(letterOrNumber: char -> bool, regexpSpace: char -> bool, unicodeSpace: char -> bool)

  datatype Issue =
    | TooMany(limit: nat)
    | EmptyKey
    | LongKey(key: string)
    | PaddedKey(key: string)
    | SystemKey(key: string)
    | KeyCharset(key: string)
    | LongValue(key: string)
    | ValueCharset(key: string)
    | ReservedPrefix(prefix: string, key: string)

  predicate InKeyCharset(c: char, cls: Classes) {
    cls.letterOrNumber(c) || cls.regexpSpace(c) || c in "_.:=+@-"
  }

  /** What is wrong with one tag. An empty key is reported alone: the loop goes on to the next tag. */
  ghost predicate TagHas(k: string, v: string, cls: Classes, issue: Issue) {
    match issue
    case EmptyKey => k == ""
    case LongKey(key) => k == key && |k| > MAX_TAG_KEY_LENGTH
    case PaddedKey(key) => k == key && k != "" && (cls.unicodeSpace(k[0]) || cls.unicodeSpace(k[|k| - 1]))
    case SystemKey(key) => k == key && "_sys_" <= k
    case KeyCharset(key) => k == key && k != "" && exists c | c in k :: !InKeyCharset(c, cls)
    case LongValue(key) => k == key && k != "" && |v| > MAX_TAG_VALUE_LENGTH
    case ValueCharset(key) => k == key && k != "" && exists c | c in v :: !InKeyCharset(c, cls) && c != '/'
    case _ => false
  }

  ghost predicate Has(tags: TagMap, cls: Classes, issue: Issue) {
    || (issue == TooMany(ClusterTags.MAX_ADDITIONAL_TAGS) && |tags| > ClusterTags.MAX_ADDITIONAL_TAGS)
    || exists k :: k in tags && TagHas(k, tags[k], cls, issue)
  }

  ghost predicate HasForNodePool(tags: TagMap, cls: Classes, issue: Issue) {
    || Has(tags, cls, issue)
    || (issue == TooMany(MAX_NODE_POOL_ADDITIONAL_TAGS) && |tags| > MAX_NODE_POOL_ADDITIONAL_TAGS)
    || (issue.ReservedPrefix? && issue.prefix in NODE_POOL_RESERVED_PREFIXES && issue.key in tags && issue.prefix <= issue.key)
  }

  method TagIssues(k: string, v: string, cls: Classes) returns (issues: seq<Issue>)
    ensures forall issue :: issue in issues <==> TagHas(k, v, cls, issue)
  {
    issues := [];
    if k == "" { return [EmptyKey]; }
    if |k| > MAX_TAG_KEY_LENGTH { issues := issues + [LongKey(k)]; }
    if cls.unicodeSpace(k[0]) || cls.unicodeSpace(k[|k| - 1]) { issues := issues + [PaddedKey(k)]; }
    if "_sys_" <= k { issues := issues + [SystemKey(k)]; }
    if !forall c | c in k :: InKeyCharset(c, cls) { issues := issues + [KeyCharset(k)]; }
    if |v| > MAX_TAG_VALUE_LENGTH { issues := issues + [LongValue(k)]; }
    if !forall c | c in v :: InKeyCharset(c, cls) || c == '/' { issues := issues + [ValueCharset(k)]; }
  }

  method Validate(tags: TagMap, cls: Classes) returns (issues: seq<Issue>)
    ensures forall issue :: issue in issues <==> Has(tags, cls, issue)
  {
    hide TagHas;
    issues := if |tags| > ClusterTags.MAX_ADDITIONAL_TAGS then [TooMany(ClusterTags.MAX_ADDITIONAL_TAGS)] else [];
    ghost var first := issues;
    var left := tags.Keys;
    while left != {}
      invariant left <= tags.Keys
      invariant forall issue :: issue in issues <==>
        issue in first || exists k :: k in tags && k !in left && TagHas(k, tags[k], cls, issue)
    {
      var k :| k in left;
      left := left - {k};
      var more := TagIssues(k, tags[k], cls);
      issues := issues + more;
    }
  }

  method ValidateNodePool(tags: TagMap, cls: Classes) returns (issues: seq<Issue>)
    ensures forall issue :: issue in issues <==> HasForNodePool(tags, cls, issue)
  {
    hide Has;
    issues := Validate(tags, cls);
    if |tags| > MAX_NODE_POOL_ADDITIONAL_TAGS {
      issues := issues + [TooMany(MAX_NODE_POOL_ADDITIONAL_TAGS)];
    }
    ghost var first := issues;
    for i := 0 to |NODE_POOL_RESERVED_PREFIXES|
      invariant forall issue :: issue in issues <==>
        (issue in first || (issue.ReservedPrefix? && issue.prefix in NODE_POOL_RESERVED_PREFIXES[..i]
                            && issue.key in tags && issue.prefix <= issue.key))
    {
      var prefix := NODE_POOL_RESERVED_PREFIXES[i];
      ghost var before := issues;
      var left := tags.Keys;
      while left != {}
        invariant left <= tags.Keys
        invariant forall issue :: issue in issues <==>
          (issue in before || (issue.ReservedPrefix? && issue.prefix == prefix
                               && issue.key in tags && issue.key !in left && prefix <= issue.key))
      {
        var k :| k in left;
        left := left - {k};
        if prefix <= k { issues := issues + [ReservedPrefix(prefix, k)]; }
      }
    }
  }

  /** The pool's tags overlay the control plane's. */
  method MergedTags(cluster: TagMap, pool: TagMap) returns (out: TagMap)
    ensures out == cluster + pool
  {
    out := map[];
    var left := cluster.Keys;
    while left != {}
      invariant left <= cluster.Keys
      invariant out == cluster - left
    {
      var k :| k in left;
      left := left - {k};
      out := out[k := cluster[k]];
    }
    left := pool.Keys;
    while left != {}
      invariant left <= pool.Keys
      invariant out == cluster + (pool - left)
    {
      var k :| k in left;
      left := left - {k};
      out := out[k := pool[k]];
    }
  }

  /** A merged set the pre-create check passes never makes a node pool exceed its cap of tags. */
  lemma ValidMergeFits(cluster: string, merged: TagMap, cls: Classes)
    requires forall issue :: !HasForNodePool(merged, cls, issue)
    ensures |Desired(cluster, ROLE_NODE, merged)| <= MAX_NODE_POOL_TAGS
  {
    assert !HasForNodePool(merged, cls, TooMany(MAX_NODE_POOL_ADDITIONAL_TAGS));
    DesiredSize(cluster, ROLE_NODE, merged);
  }

  /**
   Admission checks the two sides apart, which is not enough: sides within the pool cap with no key in
   common merge to the sum of their sizes, and past the cap only the check on the merge stops them.
   */
  lemma SidesAloneDoNotFit(cluster: TagMap, pool: TagMap, cls: Classes)
    requires cluster.Keys !! pool.Keys
    ensures |cluster + pool| == |cluster| + |pool|
    ensures |cluster| + |pool| > MAX_NODE_POOL_ADDITIONAL_TAGS ==>
              HasForNodePool(cluster + pool, cls, TooMany(MAX_NODE_POOL_ADDITIONAL_TAGS))
  {
  }
}
