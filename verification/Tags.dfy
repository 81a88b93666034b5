/**
 Instance tags: how the list for a new instance is built and deduplicated, how an instance is found
 again by its tags, and how wrong tags are corrected.
 */
module Tags {
  import opened Wrappers

  datatype Tag = Tag(key: string, value: string)

  const CLUSTER_KEY_PREFIX := "kubernetes.io/cluster/"
  const CLUSTER_VALUE := "owned"
  const NAME_KEY := "Name"
  const OWNED_KEY := "kubernetes-sigs/cluster-api"
  const OWNED_VALUE := "cluster-api-provider-alibaba"
  const ORIGIN_KEY := "sigs.k8s.io/cloud-provider-alibaba/origin"
  const ISV_KEY := "GISV"
  const ORIGIN_VALUE := "ocp"

  function ClusterTag(clusterID: string): Tag { Tag(CLUSTER_KEY_PREFIX + clusterID, CLUSTER_VALUE) }

  /** The filter that getInstances sends. */
  function LookupTags(clusterID: string, name: string): seq<Tag> {
    [ClusterTag(clusterID), Tag(NAME_KEY, name)]
  }

  /** The tags that a correction writes. */
  function ManagedTags(clusterID: string, name: string): seq<Tag> {
    LookupTags(clusterID, name) + [Tag(OWNED_KEY, OWNED_VALUE)]
  }

  /** ECS returns an instance for a tag filter when the instance carries every tag of the filter. */
  predicate Matches(tags: seq<Tag>, filter: seq<Tag>) {
    forall f <- filter :: f in tags
  }

  predicate IsUserTag(t: Tag) {
    !(CLUSTER_KEY_PREFIX <= t.key) && t.key != NAME_KEY
  }

  /** The user tags that survive the name and cluster filter, in order. */
  function UserTags(tags: seq<Tag>): seq<Tag> {
    if tags == [] then []
    else
      var rest := UserTags(tags[..|tags| - 1]);
      var t := tags[|tags| - 1];
      if IsUserTag(t) then rest + [t] else rest
  }

  predicate HasKey(tags: seq<Tag>, key: string) {
    exists i :: 0 <= i < |tags| && tags[i].key == key
  }

  /** Keeps the first tag of each key. */
  function Dedup(tags: seq<Tag>): seq<Tag> {
    if tags == [] then []
    else
      var before := tags[..|tags| - 1];
      var t := tags[|tags| - 1];
      if HasKey(before, t.key) then Dedup(before) else Dedup(before) + [t]
  }

  function FixedTags(name: string, clusterID: string): seq<Tag> {
    [ClusterTag(clusterID), Tag(NAME_KEY, name), Tag(OWNED_KEY, OWNED_VALUE),
     Tag(ORIGIN_KEY, ORIGIN_VALUE), Tag(ISV_KEY, ORIGIN_VALUE)]
  }

  /** The tag list of a new instance. */
  function BuiltTags(name: string, clusterID: string, userTags: seq<Tag>): seq<Tag> {
    Dedup(UserTags(userTags) + FixedTags(name, clusterID))
  }

  method RemoveDuplicatedTags(tags: seq<Tag>) returns (result: seq<Tag>)
    ensures result == Dedup(tags)
  {
    var seen: map<string, bool> := map[];
    result := [];
    for i := 0 to |tags|
      invariant forall k :: k in seen <==> HasKey(tags[..i], k)
      invariant result == Dedup(tags[..i])
    {
      assert tags[..i + 1][..i] == tags[..i];
      assert forall k :: HasKey(tags[..i + 1], k) <==> HasKey(tags[..i], k) || k == tags[i].key by {
        HasKeySnoc(tags[..i], tags[i]);
        assert tags[..i + 1] == tags[..i] + [tags[i]];
      }
      if tags[i].key !in seen {
        seen := seen[tags[i].key := true];
        result := result + [tags[i]];
      }
    }
    assert tags[..|tags|] == tags;
  }

  method BuildTagList(name: string, clusterID: string, userTags: seq<Tag>) returns (result: seq<Tag>)
    ensures result == BuiltTags(name, clusterID, userTags)
  {
    var raw: seq<Tag> := [];
    for i := 0 to |userTags|
      invariant raw == UserTags(userTags[..i])
    {
      assert userTags[..i + 1][..i] == userTags[..i];
      if !(CLUSTER_KEY_PREFIX <= userTags[i].key) && userTags[i].key != NAME_KEY {
        raw := raw + [userTags[i]];
      }
    }
    assert userTags[..|userTags|] == userTags;
    result := RemoveDuplicatedTags(raw + FixedTags(name, clusterID));
  }

  lemma HasKeySnoc(tags: seq<Tag>, t: Tag)
    ensures forall k :: HasKey(tags + [t], k) <==> HasKey(tags, k) || k == t.key
  {
    forall k
      ensures HasKey(tags + [t], k) <==> HasKey(tags, k) || k == t.key
    {
      if HasKey(tags, k) {
        var i :| 0 <= i < |tags| && tags[i].key == k;
        assert (tags + [t])[i].key == k;
      }
      if k == t.key {
        assert (tags + [t])[|tags|].key == k;
      }
    }
  }

  // --- What deduplication keeps ---

  /** Entry i is the first of its key. */
  predicate First(tags: seq<Tag>, i: nat)
    requires i < |tags|
  {
    forall j :: 0 <= j < i ==> tags[j].key != tags[i].key
  }

  predicate UniqueKeys(tags: seq<Tag>) {
    forall i, j :: 0 <= i < j < |tags| ==> tags[i].key != tags[j].key
  }

  /**
   Deduplication keeps exactly the first entry of each key, in the original order: idx lists, in
   increasing order, the positions that survive, and they are exactly the first occurrences.
   */
  lemma {:induction false} DedupKeepsFirsts(tags: seq<Tag>) returns (idx: seq<nat>)
    ensures |idx| == |Dedup(tags)|
    ensures forall k :: 0 <= k < |idx| ==> idx[k] < |tags| && Dedup(tags)[k] == tags[idx[k]]
    ensures forall k, l :: 0 <= k < l < |idx| ==> idx[k] < idx[l]
    ensures forall i: nat :: i < |tags| ==> (i in idx <==> First(tags, i))
  {
    if tags == [] {
      idx := [];
    } else {
      var n := |tags| - 1;
      var before := tags[..n];
      idx := DedupKeepsFirsts(before);
      FirstsSnoc(tags);
      hide First, HasKey, UniqueKeys;
      if !HasKey(before, tags[n].key) {
        idx := idx + [n];
      }
    }
  }

  lemma FirstsSnoc(tags: seq<Tag>)
    requires tags != []
    ensures var n := |tags| - 1;
            && (forall i: nat :: i < n ==> (First(tags[..n], i) <==> First(tags, i)))
            && (First(tags, n) <==> !HasKey(tags[..n], tags[n].key))
  {
    var n := |tags| - 1;
    assert forall i :: 0 <= i < n ==> tags[..n][i] == tags[i];
  }

  lemma DedupMembers(tags: seq<Tag>)
    ensures UniqueKeys(Dedup(tags))
    ensures forall t :: t in Dedup(tags) <==> exists i: nat :: i < |tags| && First(tags, i) && tags[i] == t
  {
    var idx := DedupKeepsFirsts(tags);
    var d := Dedup(tags);
    forall t
      ensures t in d <==> exists i: nat :: i < |tags| && First(tags, i) && tags[i] == t
    {
      if t in d {
        var k :| 0 <= k < |d| && d[k] == t;
        assert idx[k] in idx;
      }
      if i: nat :| i < |tags| && First(tags, i) && tags[i] == t {
        var k :| 0 <= k < |idx| && idx[k] == i;
        assert d[k] == t;
      }
    }
    forall k, l | 0 <= k < l < |d|
      ensures d[k].key != d[l].key
    {
      assert idx[l] in idx && idx[k] < idx[l];
      assert First(tags, idx[l]);
    }
  }

  lemma {:induction false} UserTagsAreUserTags(tags: seq<Tag>)
    ensures forall t :: t in UserTags(tags) <==> t in tags && IsUserTag(t)
  {
    if tags != [] {
      UserTagsAreUserTags(tags[..|tags| - 1]);
      assert tags == tags[..|tags| - 1] + [tags[|tags| - 1]];
    }
  }

  function IfMissing(tags: seq<Tag>, t: Tag): seq<Tag> {
    if HasKey(tags, t.key) then [] else [t]
  }

  lemma DedupSnoc(tags: seq<Tag>, t: Tag)
    ensures Dedup(tags + [t]) == Dedup(tags) + IfMissing(tags, t)
  {
    assert (tags + [t])[..|tags|] == tags;
  }

  lemma UntouchedSnoc(tags: seq<Tag>, t: Tag, written: seq<Tag>)
    ensures Untouched(tags + [t], written) == Untouched(tags, written) + IfMissing(written, t)
  {
    UntouchedAppend(tags, [t], written);
  }

  /** Appending tags with keys of their own: those whose keys are not there yet stay, in order. */
  lemma {:induction false} DedupAppend(a: seq<Tag>, b: seq<Tag>)
    requires UniqueKeys(b)
    ensures Dedup(a + b) == Dedup(a) + Untouched(b, a)
  {
    hide Dedup, Untouched, HasKey, UniqueKeys;
    if b == [] {
      DedupAppendNone(a);
    } else {
      LastKeyIsNew(b);
      DedupAppend(a, b[..|b| - 1]);
      DedupAppendOne(a, b[..|b| - 1], b[|b| - 1]);
      assert b == b[..|b| - 1] + [b[|b| - 1]];
    }
  }

  lemma DedupAppendNone(a: seq<Tag>)
    ensures Dedup(a + []) == Dedup(a) + Untouched([], a)
  {
    assert a + [] == a;
  }

  lemma DedupAppendOne(a: seq<Tag>, b: seq<Tag>, t: Tag)
    requires Dedup(a + b) == Dedup(a) + Untouched(b, a) && !HasKey(b, t.key)
    ensures Dedup(a + (b + [t])) == Dedup(a) + Untouched(b + [t], a)
  {
    hide Dedup, Untouched, HasKey, UniqueKeys, IfMissing;
    Regroup(a, b, [t], Dedup(a), Untouched(b, a), IfMissing(a, t));
    DedupSnoc(a + b, t);
    NewKeyMissing(a, b, t);
    UntouchedSnoc(b, t, a);
  }

  lemma NewKeyMissing(a: seq<Tag>, b: seq<Tag>, t: Tag)
    requires !HasKey(b, t.key)
    ensures IfMissing(a + b, t) == IfMissing(a, t)
  {
    HasKeyAppend(a, b, t.key);
  }

  lemma LastKeyIsNew(tags: seq<Tag>)
    requires tags != [] && UniqueKeys(tags)
    ensures UniqueKeys(tags[..|tags| - 1]) && !HasKey(tags[..|tags| - 1], tags[|tags| - 1].key)
  {
  }

  lemma Regroup(a: seq<Tag>, b: seq<Tag>, c: seq<Tag>, x: seq<Tag>, y: seq<Tag>, z: seq<Tag>)
    ensures a + b + c == a + (b + c) && x + y + z == x + (y + z)
  {
  }

  lemma HasKeyAppend(a: seq<Tag>, b: seq<Tag>, key: string)
    ensures HasKey(a + b, key) <==> HasKey(a, key) || HasKey(b, key)
  {
    if i :| 0 <= i < |a| && a[i].key == key {
      assert (a + b)[i].key == key;
    }
    if i :| 0 <= i < |b| && b[i].key == key {
      assert (a + b)[|a| + i].key == key;
    }
  }

  lemma UserKeyStays(tags: seq<Tag>, key: string)
    ensures HasKey(UserTags(tags), key) <==> HasKey(tags, key) && IsUserTag(Tag(key, ""))
  {
    UserTagsAreUserTags(tags);
    if i :| 0 <= i < |tags| && tags[i].key == key && IsUserTag(tags[i]) {
      assert tags[i] in UserTags(tags);
    }
    if i :| 0 <= i < |UserTags(tags)| && UserTags(tags)[i].key == key {
      assert UserTags(tags)[i] in tags;
    }
  }

  /** The user tags that survive both filters, by position: the first of each key that is not reserved. */
  lemma {:induction false} SurvivorsAre(userTags: seq<Tag>) returns (idx: seq<nat>)
    ensures |idx| == |Dedup(UserTags(userTags))|
    ensures forall k :: 0 <= k < |idx| ==> idx[k] < |userTags| && Dedup(UserTags(userTags))[k] == userTags[idx[k]]
    ensures forall k, l :: 0 <= k < l < |idx| ==> idx[k] < idx[l]
    ensures forall i: nat :: i < |userTags| ==> (i in idx <==> First(userTags, i) && IsUserTag(userTags[i]))
  {
    if userTags == [] {
      idx := [];
    } else {
      var n := |userTags| - 1;
      var before, t := userTags[..n], userTags[n];
      idx := SurvivorsAre(before);
      FirstsSnoc(userTags);
      UserKeyStays(before, t.key);
      if IsUserTag(t) {
        assert (UserTags(before) + [t])[..|UserTags(before)|] == UserTags(before);
      }
      hide First, HasKey, UniqueKeys, IsUserTag;
      if IsUserTag(t) && !HasKey(before, t.key) {
        idx := idx + [n];
      }
    }
  }

  /**
   The tags of a new instance, completely: first the user tags at the positions idx, in the user's order,
   namely the first of each key other than Name and those with the cluster prefix; then the machine's
   cluster tag and Name; then ownership, origin and integration, each unless the user gave that key.
   */
  lemma BuiltTagsAre(name: string, clusterID: string, userTags: seq<Tag>) returns (idx: seq<nat>)
    ensures var built := BuiltTags(name, clusterID, userTags);
            && |idx| <= |built|
            && (forall k :: 0 <= k < |idx| ==> idx[k] < |userTags| && built[k] == userTags[idx[k]])
            && built[|idx|..] ==
               [Tag("kubernetes.io/cluster/" + clusterID, "owned"), Tag("Name", name)]
               + IfMissing(userTags, Tag("kubernetes-sigs/cluster-api", "cluster-api-provider-alibaba"))
               + IfMissing(userTags, Tag("sigs.k8s.io/cloud-provider-alibaba/origin", "ocp"))
               + IfMissing(userTags, Tag("GISV", "ocp"))
    ensures forall k, l :: 0 <= k < l < |idx| ==> idx[k] < idx[l]
    ensures forall i: nat :: i < |userTags| ==>
              (i in idx <==> First(userTags, i) && userTags[i].key != "Name"
                             && !("kubernetes.io/cluster/" <= userTags[i].key))
  {
    idx := SurvivorsAre(userTags);
    FixedPart(name, clusterID, userTags);
    assert forall t :: IsUserTag(t) <==> t.key != "Name" && !("kubernetes.io/cluster/" <= t.key);
  }

  lemma FixedPart(name: string, clusterID: string, userTags: seq<Tag>)
    ensures BuiltTags(name, clusterID, userTags) ==
            Dedup(UserTags(userTags)) +
            ([Tag("kubernetes.io/cluster/" + clusterID, "owned"), Tag("Name", name)]
             + IfMissing(userTags, Tag("kubernetes-sigs/cluster-api", "cluster-api-provider-alibaba"))
             + IfMissing(userTags, Tag("sigs.k8s.io/cloud-provider-alibaba/origin", "ocp"))
             + IfMissing(userTags, Tag("GISV", "ocp")))
  {
    var user, fixed := UserTags(userTags), FixedTags(name, clusterID);
    FixedKeysDiffer(name, clusterID);
    FixedAreUserKeys(name, clusterID);
    hide Dedup, HasKey, UniqueKeys, IsUserTag, Untouched, UserTags, IfMissing;
    DedupAppend(user, fixed);
    FixedByKey(fixed, user);
    forall k | 0 <= k < 5
      ensures IfMissing(user, fixed[k]) == if k >= 2 then IfMissing(userTags, fixed[k]) else [fixed[k]]
    {
      UserKeyMissing(userTags, fixed[k]);
    }
  }

  lemma UserKeyMissing(userTags: seq<Tag>, t: Tag)
    ensures IfMissing(UserTags(userTags), t) == if IsUserTag(Tag(t.key, "")) then IfMissing(userTags, t) else [t]
  {
    UserKeyStays(userTags, t.key);
  }

  /** Only the first two fixed keys are reserved. */
  lemma FixedAreUserKeys(name: string, clusterID: string)
    ensures var fixed := FixedTags(name, clusterID);
            |fixed| == 5 && forall k :: 0 <= k < 5 ==> (IsUserTag(Tag(fixed[k].key, "")) <==> k >= 2)
  {
    assert OWNED_KEY[10] != CLUSTER_KEY_PREFIX[10] && OWNED_KEY[0] != NAME_KEY[0];
    assert ORIGIN_KEY[0] != CLUSTER_KEY_PREFIX[0] && ORIGIN_KEY[0] != NAME_KEY[0];
    assert ISV_KEY[0] != CLUSTER_KEY_PREFIX[0] && ISV_KEY[0] != NAME_KEY[0];
  }

  lemma FixedByKey(fixed: seq<Tag>, user: seq<Tag>)
    requires |fixed| == 5
    ensures Untouched(fixed, user) ==
            IfMissing(user, fixed[0]) + IfMissing(user, fixed[1]) + IfMissing(user, fixed[2])
            + IfMissing(user, fixed[3]) + IfMissing(user, fixed[4])
  {
    hide Untouched, IfMissing;
    forall k | 0 <= k < 5
      ensures Untouched(fixed[..k + 1], user) == Untouched(fixed[..k], user) + IfMissing(user, fixed[k])
    {
      assert fixed[..k + 1] == fixed[..k] + [fixed[k]];
      UntouchedSnoc(fixed[..k], fixed[k], user);
    }
    UntouchedOfNone(user);
    assert fixed[..0] == [] && fixed[..5] == fixed;
    assert Untouched(fixed[..0 + 1], user) == IfMissing(user, fixed[0]);
    assert Untouched(fixed[..1 + 1], user) == Untouched(fixed[..1], user) + IfMissing(user, fixed[1]);
    assert Untouched(fixed[..2 + 1], user) == Untouched(fixed[..2], user) + IfMissing(user, fixed[2]);
    assert Untouched(fixed[..3 + 1], user) == Untouched(fixed[..3], user) + IfMissing(user, fixed[3]);
    assert Untouched(fixed[..4 + 1], user) == Untouched(fixed[..4], user) + IfMissing(user, fixed[4]);
  }

  lemma UntouchedOfNone(written: seq<Tag>)
    ensures Untouched([], written) == []
  {
  }

  lemma DefaultIsThere(name: string, clusterID: string, userTags: seq<Tag>, fixed: Tag)
    requires fixed in FixedTags(name, clusterID)
    requires HasKey(userTags, fixed.key) ==> fixed.key == "Name" || "kubernetes.io/cluster/" <= fixed.key
    ensures fixed in BuiltTags(name, clusterID, userTags)
  {
    UserKeyStays(userTags, fixed.key);
    BuiltMember(name, clusterID, userTags, fixed);
  }

  /**
   Each of the five fixed keys is on a new instance exactly once: cluster and Name with the machine's
   values, the others with the first value the user gave, or else the default.
   */
  lemma FixedKeyOnce(name: string, clusterID: string, userTags: seq<Tag>, fixed: Tag)
    requires fixed in [Tag("kubernetes.io/cluster/" + clusterID, "owned"), Tag("Name", name),
                       Tag("kubernetes-sigs/cluster-api", "cluster-api-provider-alibaba"),
                       Tag("sigs.k8s.io/cloud-provider-alibaba/origin", "ocp"), Tag("GISV", "ocp")]
    ensures var built := BuiltTags(name, clusterID, userTags);
            && UniqueKeys(built)
            && exists t <- built :: t.key == fixed.key &&
                 (if HasKey(userTags, t.key) && t.key != "Name" && !("kubernetes.io/cluster/" <= t.key)
                  then exists i: nat :: i < |userTags| && First(userTags, i) && t == userTags[i]
                  else t == fixed)
  {
    var built := BuiltTags(name, clusterID, userTags);
    BuiltTagsAreManaged(name, clusterID, userTags);
    var idx := BuiltTagsAre(name, clusterID, userTags);
    if HasKey(userTags, fixed.key) && fixed.key != "Name" && !("kubernetes.io/cluster/" <= fixed.key) {
      var i := FirstWithKey(userTags, fixed.key);
      assert i in idx;
      var k :| 0 <= k < |idx| && idx[k] == i;
      assert built[k] == userTags[i];
    } else {
      DefaultIsThere(name, clusterID, userTags, fixed);
    }
  }

  /** Splits a member of a tag list under construction into its user part and its fixed part. */
  lemma BuiltMember(name: string, clusterID: string, userTags: seq<Tag>, t: Tag)
    ensures t in BuiltTags(name, clusterID, userTags) ==>
              (IsUserTag(t) && t in userTags) || t in FixedTags(name, clusterID)
    ensures t in FixedTags(name, clusterID) && !HasKey(UserTags(userTags), t.key) ==>
              t in BuiltTags(name, clusterID, userTags)
  {
    var user := UserTags(userTags);
    var fixed := FixedTags(name, clusterID);
    var raw := user + fixed;
    UserTagsAreUserTags(userTags);
    DedupMembers(raw);
    if t in fixed && !HasKey(user, t.key) {
      FixedKeysDiffer(name, clusterID);
      var i :| 0 <= i < |fixed| && fixed[i] == t;
      assert raw[|user| + i] == t;
      forall j | 0 <= j < |user| + i
        ensures raw[j].key != t.key
      {
        if j < |user| {
          assert user[j] == raw[j];
        } else {
          assert raw[j] == fixed[j - |user|];
        }
      }
      assert First(raw, |user| + i);
    }
  }

  lemma FixedKeysDiffer(name: string, clusterID: string)
    ensures UniqueKeys(FixedTags(name, clusterID))
  {
    var key := CLUSTER_KEY_PREFIX + clusterID;
    assert key[0] == 'k' && key[10] == '.';
    assert OWNED_KEY[10] == '-';
    assert NAME_KEY[0] == 'N' && ORIGIN_KEY[0] == 's' && ISV_KEY[0] == 'G' && OWNED_KEY[0] == 'k';
  }

  /**
   Whatever the user asked for, the built list has unique keys, exactly one key with the cluster
   prefix and exactly one Name, both with the values of this machine.
   */
  lemma BuiltTagsAreManaged(name: string, clusterID: string, userTags: seq<Tag>)
    ensures UniqueKeys(BuiltTags(name, clusterID, userTags))
    ensures forall t <- BuiltTags(name, clusterID, userTags) ::
              (CLUSTER_KEY_PREFIX <= t.key ==> t == ClusterTag(clusterID)) &&
              (t.key == NAME_KEY ==> t == Tag(NAME_KEY, name))
    ensures ClusterTag(clusterID) in BuiltTags(name, clusterID, userTags)
    ensures Tag(NAME_KEY, name) in BuiltTags(name, clusterID, userTags)
  {
    var built := BuiltTags(name, clusterID, userTags);
    DedupMembers(UserTags(userTags) + FixedTags(name, clusterID));
    UserTagsAreUserTags(userTags);
    forall t | t in built
      ensures CLUSTER_KEY_PREFIX <= t.key ==> t == ClusterTag(clusterID)
      ensures t.key == NAME_KEY ==> t == Tag(NAME_KEY, name)
    {
      BuiltMember(name, clusterID, userTags, t);
      assert !(CLUSTER_KEY_PREFIX <= OWNED_KEY) by { assert OWNED_KEY[10] != CLUSTER_KEY_PREFIX[10]; }
      assert ClusterTag(clusterID).key[0] == 'k';
    }
    var fixed := FixedTags(name, clusterID);
    assert fixed[0] == ClusterTag(clusterID) && fixed[1] == Tag(NAME_KEY, name);
    assert !IsUserTag(fixed[0]) && !IsUserTag(fixed[1]);
    forall t | t in UserTags(userTags)
      ensures t.key != fixed[0].key && t.key != fixed[1].key
    {
      assert CLUSTER_KEY_PREFIX <= fixed[0].key;
    }
    BuiltMember(name, clusterID, userTags, fixed[0]);
    BuiltMember(name, clusterID, userTags, fixed[1]);
  }

  /** Tag lookup finds an instance built for (name, clusterID) exactly when it asks for that pair. */
  lemma LookupAgreesWithBuild(
    name: string, clusterID: string, userTags: seq<Tag>, otherName: string, otherCluster: string
  )
    ensures Matches(BuiltTags(name, clusterID, userTags), LookupTags(otherCluster, otherName))
       <==> otherName == name && otherCluster == clusterID
  {
    var built := BuiltTags(name, clusterID, userTags);
    BuiltTagsAreManaged(name, clusterID, userTags);
    var filter := LookupTags(otherCluster, otherName);
    if Matches(built, filter) {
      assert filter[0] in built && filter[1] in built;
      var mine, theirs := CLUSTER_KEY_PREFIX + clusterID, CLUSTER_KEY_PREFIX + otherCluster;
      assert mine == theirs;
      assert mine[|CLUSTER_KEY_PREFIX|..] == clusterID && theirs[|CLUSTER_KEY_PREFIX|..] == otherCluster;
    }
  }

  // --- Tag correction ---

  /** What correctExistingTags decides from the tags it sees. */
  predicate NeedsRetag(tags: seq<Tag>, clusterID: string, name: string) {
    name == "" || !Matches(tags, ManagedTags(clusterID, name))
  }

  /** No correction is needed exactly when the machine has a name and all three managed tags are there. */
  lemma RetagIff(tags: seq<Tag>, clusterID: string, name: string)
    ensures !NeedsRetag(tags, clusterID, name) <==>
            && name != "" && Tag("Name", name) in tags
            && Tag("kubernetes.io/cluster/" + clusterID, "owned") in tags
            && Tag("kubernetes-sigs/cluster-api", "cluster-api-provider-alibaba") in tags
    ensures ManagedTags(clusterID, name) ==
            [Tag("kubernetes.io/cluster/" + clusterID, "owned"), Tag("Name", name),
             Tag("kubernetes-sigs/cluster-api", "cluster-api-provider-alibaba")]
    ensures LookupTags(clusterID, name) == [Tag("kubernetes.io/cluster/" + clusterID, "owned"), Tag("Name", name)]
  {
    var managed := ManagedTags(clusterID, name);
    assert managed[0] == ClusterTag(clusterID) && managed[1] == Tag(NAME_KEY, name)
        && managed[2] == Tag(OWNED_KEY, OWNED_VALUE);
  }

  /** TagResources adds the named keys or replaces their values and leaves other tags alone. */
  function Retagged(tags: seq<Tag>, written: seq<Tag>): seq<Tag> {
    Untouched(tags, written) + written
  }

  /** The tags whose keys a write does not name, in order. */
  function Untouched(tags: seq<Tag>, written: seq<Tag>): (kept: seq<Tag>)
    ensures forall t :: t in kept <==> t in tags && !HasKey(written, t.key)
  {
    if tags == [] then []
    else
      var rest := Untouched(tags[1..], written);
      if HasKey(written, tags[0].key) then rest else [tags[0]] + rest
  }

  method CheckTags(tags: seq<Tag>, clusterID: string, name: string) returns (needsRetag: bool)
    ensures needsRetag == NeedsRetag(tags, clusterID, name)
  {
    var nameTagOk, clusterTagOk, ownedTagOk := false, false, false;
    for i := 0 to |tags|
      invariant nameTagOk <==> name != "" && Tag(NAME_KEY, name) in tags[..i]
      invariant clusterTagOk <==> ClusterTag(clusterID) in tags[..i]
      invariant ownedTagOk <==> Tag(OWNED_KEY, OWNED_VALUE) in tags[..i]
    {
      var tag := tags[i];
      assert tags[..i + 1] == tags[..i] + [tag];
      if tag.key != "" && tag.value != "" {
        if tag.key == NAME_KEY && tag.value == name {
          nameTagOk := true;
        }
        if tag.key == CLUSTER_KEY_PREFIX + clusterID && tag.value == CLUSTER_VALUE {
          clusterTagOk := true;
        }
        if tag.key == OWNED_KEY && tag.value == OWNED_VALUE {
          ownedTagOk := true;
        }
      }
    }
    assert tags[..|tags|] == tags;
    var managed := ManagedTags(clusterID, name);
    assert managed[0] == ClusterTag(clusterID) && managed[1] == Tag(NAME_KEY, name)
        && managed[2] == Tag(OWNED_KEY, OWNED_VALUE);
    needsRetag := !nameTagOk || !clusterTagOk || !ownedTagOk;
  }

  /**
   One correction is enough, exactly when the machine has a name, and it leaves every tag outside
   the three managed keys in place and in order.
   */
  lemma CorrectionConverges(tags: seq<Tag>, clusterID: string, name: string)
    ensures var after := Retagged(tags, ManagedTags(clusterID, name));
            && (NeedsRetag(after, clusterID, name) <==> name == "")
            && Tag("kubernetes.io/cluster/" + clusterID, "owned") in after && Tag("Name", name) in after
            && Tag("kubernetes-sigs/cluster-api", "cluster-api-provider-alibaba") in after
            && Matches(after, LookupTags(clusterID, name))
            && Untouched(after, ManagedTags(clusterID, name)) == Untouched(tags, ManagedTags(clusterID, name))
  {
    var managed := ManagedTags(clusterID, name);
    var kept := Untouched(tags, managed);
    UntouchedAppend(kept, managed, managed);
    UntouchedIdentity(kept, managed);
    UntouchedNothing(managed, managed);
    assert LookupTags(clusterID, name) == managed[..2];
    assert managed[0] in managed && managed[1] in managed && managed[2] in managed;
  }

  lemma {:induction false} UntouchedAppend(a: seq<Tag>, b: seq<Tag>, written: seq<Tag>)
    ensures Untouched(a + b, written) == Untouched(a, written) + Untouched(b, written)
  {
    if a == [] {
      assert a + b == b;
    } else {
      assert (a + b)[1..] == a[1..] + b;
      UntouchedAppend(a[1..], b, written);
    }
  }

  lemma {:induction false} UntouchedIdentity(kept: seq<Tag>, written: seq<Tag>)
    requires forall t <- kept :: !HasKey(written, t.key)
    ensures Untouched(kept, written) == kept
  {
    if kept != [] {
      UntouchedIdentity(kept[1..], written);
    }
  }

  lemma {:induction false} UntouchedNothing(tags: seq<Tag>, written: seq<Tag>)
    requires forall t <- tags :: HasKey(written, t.key)
    ensures Untouched(tags, written) == []
  {
    if tags != [] {
      UntouchedNothing(tags[1..], written);
    }
  }

  /**
   The first update after a create retags the instance exactly when the first user tag with the
   ownership key has another value (or the machine has no name).
   */
  lemma RetagAfterCreate(name: string, clusterID: string, userTags: seq<Tag>)
    ensures NeedsRetag(BuiltTags(name, clusterID, userTags), clusterID, name) <==>
            (name == "" || exists i: nat :: i < |userTags| && userTags[i].key == OWNED_KEY
                                            && First(userTags, i) && userTags[i].value != OWNED_VALUE)
  {
    var built := BuiltTags(name, clusterID, userTags);
    var user := UserTags(userTags);
    var owned := Tag(OWNED_KEY, OWNED_VALUE);
    BuiltTagsAreManaged(name, clusterID, userTags);
    var managed := ManagedTags(clusterID, name);
    assert managed[0] == ClusterTag(clusterID) && managed[1] == Tag(NAME_KEY, name) && managed[2] == owned;
    assert NeedsRetag(built, clusterID, name) <==> name == "" || owned !in built;
    assert forall v :: IsUserTag(Tag(OWNED_KEY, v)) by {
      assert OWNED_KEY[10] != CLUSTER_KEY_PREFIX[10];
    }
    if HasKey(userTags, OWNED_KEY) {
      var i := FirstWithKey(userTags, OWNED_KEY);
      SurvivingFirst(userTags, i, name, clusterID);
      assert owned in built <==> userTags[i] == owned;
    } else {
      UserTagsAreUserTags(userTags);
      BuiltMember(name, clusterID, userTags, owned);
    }
  }

  lemma {:induction false} FirstWithKey(tags: seq<Tag>, key: string) returns (i: nat)
    requires HasKey(tags, key)
    ensures i < |tags| && tags[i].key == key && First(tags, i)
  {
    var n := |tags| - 1;
    i := n;
    if HasKey(tags[..n], key) {
      i := FirstWithKey(tags[..n], key);
      assert forall j :: 0 <= j < n ==> tags[..n][j] == tags[j];
    }
  }

  /** The first user tag with the ownership key is the one the built list carries for that key. */
  lemma SurvivingFirst(userTags: seq<Tag>, i: nat, name: string, clusterID: string)
    requires i < |userTags| && userTags[i].key == OWNED_KEY && First(userTags, i)
    requires forall v :: IsUserTag(Tag(OWNED_KEY, v))
    ensures userTags[i] in BuiltTags(name, clusterID, userTags)
    ensures forall t <- BuiltTags(name, clusterID, userTags) :: t.key == OWNED_KEY ==> t == userTags[i]
  {
    var raw := UserTags(userTags) + FixedTags(name, clusterID);
    assert userTags[i] == Tag(OWNED_KEY, userTags[i].value);
    var k := PositionOfFirst(userTags, i);
    assert raw[k] == userTags[i];
    assert First(raw, k) by {
      forall j | 0 <= j < k
        ensures raw[j].key != raw[k].key
      {
        assert raw[j] == UserTags(userTags)[j];
      }
    }
    DedupMembers(raw);
  }

  lemma {:induction false} PositionOfFirst(tags: seq<Tag>, i: nat) returns (k: nat)
    requires i < |tags| && First(tags, i) && IsUserTag(tags[i])
    ensures k < |UserTags(tags)| && UserTags(tags)[k] == tags[i] && First(UserTags(tags), k)
  {
    var n := |tags| - 1;
    var before := tags[..n];
    if i == n {
      k := |UserTags(before)|;
      UserTagsAreUserTags(before);
      assert tags[n] == UserTags(tags)[k];
      forall j | 0 <= j < k
        ensures UserTags(tags)[j].key != tags[n].key
      {
        assert UserTags(before)[j] in before;
      }
    } else {
      assert First(before, i);
      k := PositionOfFirst(before, i);
    }
  }
}
