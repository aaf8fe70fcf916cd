/**
 Retention of the corpus (backend/app/jobs/retention.py): Posts deleted in
 bounded batches with what hangs off them, then the anchors repaired.
 */
module RetentionPosts {
  import opened Options
  import opened Retention

  datatype PostKey = PostKey(channel: string, id: int)
  datatype Post = Post(timestamp: int, isAnchor: bool)
  datatype Translation = Translation(post: PostKey, language: string)
  /** Each Channel's `anchor_post_id`, by the Channel's name. */
  type Anchors = map<string, Option<int>>

  function Expired(posts: map<PostKey, Post>, cutoff: int): set<PostKey> {
    set k | k in posts && posts[k].timestamp < cutoff && !posts[k].isAnchor
  }

  function ChannelsOf(keys: set<PostKey>): set<string> { set k | k in keys :: k.channel }

  function Repaired(channels: Anchors, posts: map<PostKey, Post>, affected: set<string>): Anchors {
    map c | c in channels ::
      if c in affected && channels[c].Some? && PostKey(c, channels[c].value) !in posts then None else channels[c]
  }

  function WithoutEmbeddings(embeddings: set<PostKey>, gone: set<PostKey>): set<PostKey> { embeddings - gone }

  function WithoutTranslations(translations: set<Translation>, gone: set<PostKey>): set<Translation> {
    set t | t in translations && t.post !in gone
  }

  /** No Channel's anchor names a missing Post. */
  predicate AnchorsHold(channels: Anchors, posts: map<PostKey, Post>) {
    forall c | c in channels && channels[c].Some? :: PostKey(c, channels[c].value) in posts
  }

  class Corpus {
    var posts: map<PostKey, Post>
    var embeddings: set<PostKey>
    var translations: set<Translation>
    var channels: Anchors

    constructor (posts: map<PostKey, Post>, embeddings: set<PostKey>, translations: set<Translation>, channels: Anchors)
      ensures this.posts == posts && this.embeddings == embeddings && this.translations == translations
              && this.channels == channels
    {
      this.posts, this.embeddings, this.translations, this.channels := posts, embeddings, translations, channels;
    }

    /** At most a batch of the expired Posts, in whatever order the database has them. */
    method Batch(cutoff: int) returns (batch: set<PostKey>)
      ensures batch <= Expired(posts, cutoff) && |batch| <= POST_DELETE_BATCH
              && (batch == {} ==> Expired(posts, cutoff) == {})
    {
      batch := {};
      var rest := Expired(posts, cutoff);
      while rest != {} && |batch| < POST_DELETE_BATCH
        invariant batch + rest == Expired(posts, cutoff) && batch !! rest && |batch| <= POST_DELETE_BATCH
        decreases |rest|
      {
        var k :| k in rest;
        batch, rest := batch + {k}, rest - {k};
      }
    }

    /** One Channel's share of a batch. */
    method DeleteIn(channel: string, ids: set<int>) returns (count: nat)
      requires Keys(channel, ids) <= posts.Keys
      modifies this`posts, this`embeddings, this`translations
      ensures posts == old(posts) - Keys(channel, ids) && count == |Keys(channel, ids)|
      ensures embeddings == WithoutEmbeddings(old(embeddings), Keys(channel, ids))
      ensures translations == WithoutTranslations(old(translations), Keys(channel, ids))
    {
      embeddings := set k | k in embeddings && !(k.channel == channel && k.id in ids);
      translations := set t | t in translations && !(t.post.channel == channel && t.post.id in ids);
      var gone := set k | k in posts && k.channel == channel && k.id in ids;
      assert gone == Keys(channel, ids);
      count := |gone|;
      posts := posts - gone;
    }

    /** A batch, Channel by Channel. */
    method DeleteBatch(batch: set<PostKey>) returns (count: nat)
      requires batch <= posts.Keys
      modifies this`posts, this`embeddings, this`translations
      ensures posts == old(posts) - batch && count == |batch|
      ensures embeddings == WithoutEmbeddings(old(embeddings), batch)
      ensures translations == WithoutTranslations(old(translations), batch)
    {
      count := 0;
      var left := ChannelsOf(batch);
      ghost var gone: set<PostKey> := {};
      while left != {}
        invariant left <= ChannelsOf(batch) && gone == DoneWith(batch, left)
        invariant posts == old(posts) - gone && count == |gone|
        invariant embeddings == WithoutEmbeddings(old(embeddings), gone)
        invariant translations == WithoutTranslations(old(translations), gone)
      {
        var channel :| channel in left;
        var ids := set k | k in batch && k.channel == channel :: k.id;
        OneMoreChannel(batch, left, channel, ids);
        var n := DeleteIn(channel, ids);
        RemovedTwice(old(posts), old(translations), gone, Keys(channel, ids));
        count, gone, left := count + n, gone + Keys(channel, ids), left - {channel};
      }
      assert gone == batch;
    }

    /** Delete in batches until none is left, then repair the anchors of the Channels touched: a Post stays if it
        is an anchor or young enough, what hangs off one goes with it, and a Channel that lost a Post loses an
        anchor that is not there. */
    method SweepPosts(cutoff: int) returns (deleted: nat)
      modifies this
      ensures posts == map k | k in old(posts) && (old(posts)[k].isAnchor || old(posts)[k].timestamp >= cutoff) ::
                         old(posts)[k]
      ensures deleted == |old(posts)| - |posts|
      ensures forall k :: k in embeddings <==>
                && k in old(embeddings)
                && !(k in old(posts) && !old(posts)[k].isAnchor && old(posts)[k].timestamp < cutoff)
      ensures forall t :: t in translations <==>
                && t in old(translations)
                && !(t.post in old(posts) && !old(posts)[t.post].isAnchor && old(posts)[t.post].timestamp < cutoff)
      ensures channels.Keys == old(channels).Keys
      ensures forall c | c in channels ::
                channels[c] == if && old(channels)[c].Some? && PostKey(c, old(channels)[c].value) !in posts
                                  && exists k | k in old(posts) :: k.channel == c && k !in posts
                               then None else old(channels)[c]
      ensures SweptTo(old(posts), old(embeddings), old(translations), old(channels), cutoff)
    {
      deleted := SweepAll(cutoff);
      SweptIs(old(posts), old(embeddings), old(translations), cutoff);
      Removed(old(posts), Expired(old(posts), cutoff));
      forall c | c in channels ensures c in ChannelsOf(Expired(old(posts), cutoff)) <==>
                                         exists k | k in old(posts) :: k.channel == c && k !in posts {
        if k :| k in old(posts) && k.channel == c && k !in posts { assert k in Expired(old(posts), cutoff); }
        if c in ChannelsOf(Expired(old(posts), cutoff)) {
          var k :| k in Expired(old(posts), cutoff) && k.channel == c;
          assert k in old(posts) && k !in posts;
        }
      }
    }

    /** The same in terms of the Posts that go. */
    ghost predicate SweptTo(was: map<PostKey, Post>, embedded: set<PostKey>, translated: set<Translation>,
                            anchors: Anchors, cutoff: int)
      reads this
    {
      var gone := Expired(was, cutoff);
      && posts == was - gone && embeddings == WithoutEmbeddings(embedded, gone)
      && translations == WithoutTranslations(translated, gone)
      && channels == Repaired(anchors, posts, ChannelsOf(gone))
    }

    method SweepAll(cutoff: int) returns (deleted: nat)
      modifies this
      ensures SweptTo(old(posts), old(embeddings), old(translations), old(channels), cutoff)
      ensures deleted == |Expired(old(posts), cutoff)|
    {
      deleted := 0;
      var affected: set<string> := {};
      ghost var gone: set<PostKey> := {};
      while true
        invariant gone <= Expired(old(posts), cutoff) && posts == old(posts) - gone && deleted == |gone|
        invariant embeddings == WithoutEmbeddings(old(embeddings), gone)
        invariant translations == WithoutTranslations(old(translations), gone)
        invariant channels == old(channels) && affected == ChannelsOf(gone)
        decreases |Expired(posts, cutoff)|
      {
        var batch := Batch(cutoff);
        ExpiredLeft(old(posts), cutoff, gone);
        if batch == {} { break; }
        var n := DeleteBatch(batch);
        BatchGone(old(posts), old(embeddings), old(translations), cutoff, gone, batch);
        deleted, affected, gone := deleted + n, affected + ChannelsOf(batch), gone + batch;
      }
      assert gone == Expired(old(posts), cutoff);
      Repair(affected);
    }

    method Repair(affected: set<string>)
      modifies this`channels
      ensures channels == Repaired(old(channels), posts, affected)
    {
      var left := affected;
      while left != {}
        invariant left <= affected && channels == Repaired(old(channels), posts, affected - left)
      {
        var c :| c in left;
        if c in channels && channels[c].Some? && PostKey(c, channels[c].value) !in posts {
          channels := channels[c := None];
        }
        left := left - {c};
      }
      assert affected - left == affected;
    }
  }

  lemma SweptIs(posts: map<PostKey, Post>, embeddings: set<PostKey>, translations: set<Translation>, cutoff: int)
    ensures var gone := Expired(posts, cutoff);
            && posts - gone == (map k | k in posts && (posts[k].isAnchor || posts[k].timestamp >= cutoff) :: posts[k])
            && gone <= posts.Keys
            && (forall k :: k in WithoutEmbeddings(embeddings, gone) <==>
                  k in embeddings && !(k in posts && !posts[k].isAnchor && posts[k].timestamp < cutoff))
            && forall t :: t in WithoutTranslations(translations, gone) <==>
                 && t in translations
                 && !(t.post in posts && !posts[t.post].isAnchor && posts[t.post].timestamp < cutoff)
  {}

  ghost function DoneWith(batch: set<PostKey>, left: set<string>): set<PostKey> {
    set k | k in batch && k.channel !in left
  }

  function Keys(channel: string, ids: set<int>): set<PostKey> { set i | i in ids :: PostKey(channel, i) }

  lemma OneMoreChannel(batch: set<PostKey>, left: set<string>, channel: string, ids: set<int>)
    requires channel in left && ids == set k | k in batch && k.channel == channel :: k.id
    ensures Keys(channel, ids) <= batch && Keys(channel, ids) !! DoneWith(batch, left)
    ensures DoneWith(batch, left - {channel}) == DoneWith(batch, left) + Keys(channel, ids)
  {
    forall k | k in batch && k.channel == channel ensures k in Keys(channel, ids) {
      assert k == PostKey(channel, k.id) && k.id in ids;
    }
  }

  lemma RemovedTwice(posts: map<PostKey, Post>, translations: set<Translation>, a: set<PostKey>, b: set<PostKey>)
    ensures posts - a - b == posts - (a + b)
    ensures WithoutTranslations(WithoutTranslations(translations, a), b) == WithoutTranslations(translations, a + b)
  {}

  lemma ExpiredLeft(posts: map<PostKey, Post>, cutoff: int, gone: set<PostKey>)
    ensures Expired(posts - gone, cutoff) == Expired(posts, cutoff) - gone
  {}

  lemma BatchGone(posts: map<PostKey, Post>, embeddings: set<PostKey>, translations: set<Translation>, cutoff: int,
                  gone: set<PostKey>, batch: set<PostKey>)
    requires gone <= Expired(posts, cutoff) && batch <= Expired(posts, cutoff) - gone && batch != {}
    ensures posts - gone - batch == posts - (gone + batch)
    ensures WithoutEmbeddings(WithoutEmbeddings(embeddings, gone), batch) == WithoutEmbeddings(embeddings, gone + batch)
    ensures WithoutTranslations(WithoutTranslations(translations, gone), batch)
            == WithoutTranslations(translations, gone + batch)
    ensures |Expired(posts - (gone + batch), cutoff)| < |Expired(posts - gone, cutoff)|
    ensures ChannelsOf(gone + batch) == ChannelsOf(gone) + ChannelsOf(batch) && |gone + batch| == |gone| + |batch|
  {
    RemovedTwice(posts, translations, gone, batch);
    ExpiredLeft(posts, cutoff, gone);
    ExpiredLeft(posts, cutoff, gone + batch);
    Fewer(Expired(posts, cutoff) - gone, batch);
    assert Expired(posts, cutoff) - (gone + batch) == Expired(posts, cutoff) - gone - batch;
  }

  lemma Fewer<T>(whole: set<T>, part: set<T>)
    requires part <= whole && part != {}
    ensures |whole - part| < |whole|
  {}

  // -------------------------------------------------------------------- laws

  /** The sweep never leaves an anchor dangling, and clears exactly the anchors whose Post it deleted. */
  lemma AnchorsStayWhole(posts: map<PostKey, Post>, channels: Anchors, cutoff: int)
    requires AnchorsHold(channels, posts)
    ensures var gone := Expired(posts, cutoff); var repaired := Repaired(channels, posts - gone, ChannelsOf(gone));
            AnchorsHold(repaired, posts - gone)
            && forall c | c in channels ::
                 repaired[c] == if channels[c].Some? && PostKey(c, channels[c].value) in gone then None else channels[c]
  {
    var gone := Expired(posts, cutoff);
    forall c | c in channels && channels[c].Some? && PostKey(c, channels[c].value) in gone
      ensures c in ChannelsOf(gone)
    {
      assert PostKey(c, channels[c].value).channel == c;
    }
  }

  /** A sweep cut off after some batches, before the repair, then run again. The rows come out as
      from one sweep, and no anchor a whole sweep keeps is lost; but the anchors come out the same
      exactly when every Channel whose anchor was already deleted still had an expired Post. */
  lemma InterruptedSweep(posts: map<PostKey, Post>, channels: Anchors, cutoff: int, part: set<PostKey>)
    requires AnchorsHold(channels, posts) && part <= Expired(posts, cutoff)
    ensures var left := posts - part; var whole := posts - Expired(posts, cutoff);
            left - Expired(left, cutoff) == whole
            && (Repaired(channels, whole, ChannelsOf(Expired(left, cutoff)))
                == Repaired(channels, whole, ChannelsOf(Expired(posts, cutoff)))
                <==> forall c | c in channels && channels[c].Some? && PostKey(c, channels[c].value) in part ::
                  c in ChannelsOf(Expired(left, cutoff)))
  {
    var gone := Expired(posts, cutoff);
    var left, whole := posts - part, posts - gone;
    ExpiredLeft(posts, cutoff, part);
    var again, once := Repaired(channels, whole, ChannelsOf(gone - part)), Repaired(channels, whole, ChannelsOf(gone));
    forall c | c in channels && channels[c].Some? && PostKey(c, channels[c].value) in gone
      ensures c in ChannelsOf(gone) && once[c] == None
      ensures PostKey(c, channels[c].value) !in part ==> c in ChannelsOf(gone - part)
    {
      assert PostKey(c, channels[c].value).channel == c;
    }
    if again == once {
      forall c | c in channels && channels[c].Some? && PostKey(c, channels[c].value) in part
        ensures c in ChannelsOf(gone - part)
      {
        assert again[c] == once[c] == None;
      }
    }
  }
}
