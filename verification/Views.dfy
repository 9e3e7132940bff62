/** The forum views, folded and filtered. */
module Views {
  import opened Types
  import opened Text
  import opened Decimal
  import opened Canonical
  import opened Timeline
  import opened Invariant
  import opened Ledger
  import opened Moderation
  import opened Replay

  datatype Recipe = Recipe(
    id: string,
    source: string,
    title: string,
    category: string,
    author: string,
    updated: int,
    averageRating: real,
    reviewCount: int,
    thumbsUp: int,
    coreTopic: bool,
    menuSegment: string,
    value: int)

  datatype Thread = Thread(
    id: string,
    source: string,
    recipe: string,
    title: string,
    author: string,
    updated: int,
    replyCount: nat,
    value: int)

  datatype Reply = Reply(
    id: string,
    source: string,
    thread: string,
    author: string,
    markdown: string,
    updated: int,
    value: int)

  datatype Rating = Rating(sum: int, count: nat)

  datatype Forum = Forum(
    recipes: map<string, Recipe>,
    threads: map<string, Thread>,
    replies: map<string, seq<Reply>>,
    ratings: map<string, Rating>,
    thumbs: map<string, nat>)

  const NOTHING := Forum(map[], map[], map[], map[], map[])

  // ----- the fold

  /** The totals of a recipe, where there are any, copied into its summary. */
  function Totalled(r: Recipe, id: string, ratings: map<string, Rating>, thumbs: map<string, nat>): Recipe {
    var rated :=
      if id in ratings && ratings[id].count > 0
      then r.(reviewCount := ratings[id].count, averageRating := ratings[id].sum as real / ratings[id].count as real)
      else r;
    if id in thumbs then rated.(thumbsUp := thumbs[id]) else rated
  }

  predicate SaysYes(payload: map<string, string>, key: string) { key in payload && IsYes(payload[key]) }

  function Menu(core: bool): string { if core then "core-menu" else "community-post" }

  function BareRecipe(e: Event, payload: map<string, string>): Recipe {
    var core := SaysYes(payload, "core_topic") || SaysYes(payload, "moderator_core");
    Recipe(Field(payload, "recipe_id", e.id), e.id, Field(payload, "title", "Untitled recipe"),
           Field(payload, "category", "General"), e.author, e.ts, 0.0, 0, 0, core,
           Field(payload, "menu_segment", Menu(core)), PostValue(payload))
  }

  function NewThread(e: Event, payload: map<string, string>): Thread {
    Thread(Field(payload, "thread_id", e.id), e.id, Field(payload, "recipe_id", ""),
           Field(payload, "title", "Untitled thread"), e.author, e.ts, 0, PostValue(payload))
  }

  function NewReply(e: Event, payload: map<string, string>): Reply {
    Reply(Field(payload, "reply_id", e.id), e.id, Field(payload, "thread_id", ""), e.author,
          Field(payload, "markdown", ""), e.ts, PostValue(payload))
  }

  function RatingOf(m: map<string, Rating>, id: string): Rating { if id in m then m[id] else Rating(0, 0) }

  function ThumbsOf(m: map<string, nat>, id: string): nat { if id in m then m[id] else 0 }

  function RepliesTo(m: map<string, seq<Reply>>, thread: string): seq<Reply> { if thread in m then m[thread] else [] }

  function PostRecipe(f: Forum, r: Recipe): Forum {
    f.(recipes := f.recipes[r.id := Totalled(r, r.id, f.ratings, f.thumbs)])
  }

  function PostReply(f: Forum, r: Reply): Forum {
    if r.thread == "" then f else f.(replies := f.replies[r.thread := RepliesTo(f.replies, r.thread) + [r]])
  }

  function PostReview(f: Forum, recipe: string, rating: int): Forum {
    if recipe == "" then f
    else
      var before := RatingOf(f.ratings, recipe);
      f.(ratings := f.ratings[recipe := Rating(before.sum + rating, before.count + 1)])
  }

  function PostThumb(f: Forum, recipe: string): Forum {
    if recipe == "" then f else f.(thumbs := f.thumbs[recipe := ThumbsOf(f.thumbs, recipe) + 1])
  }

  function Post(f: Forum, e: Event, payload: map<string, string>): Forum {
    match e.kind
    case RecipeCreated => PostRecipe(f, BareRecipe(e, payload))
    case ThreadCreated => var t := NewThread(e, payload); f.(threads := f.threads[t.id := t])
    case ReplyCreated => PostReply(f, NewReply(e, payload))
    case ReviewAdded =>
      PostReview(f, Field(payload, "recipe_id", ""), ParseI32OrZero(Field(payload, "rating", "0")))
    case ThumbsUpAdded => PostThumb(f, Field(payload, "recipe_id", ""))
    case _ => f
  }

  /** Posts that were refused as spends leave no trace. */
  predicate Accepted(refused: map<string, Reason>, e: Event) { IsPostKind(e.kind) && e.id !in refused }

  /** The forum after the first `n` events of the replay order, before any totals and filters. */
  function Posted(refused: map<string, Reason>, events: seq<Event>, n: nat): Forum
    requires n <= |events|
  {
    if n == 0 then NOTHING
    else
      var f := Posted(refused, events, n - 1);
      if Accepted(refused, events[n - 1]) then Post(f, events[n - 1], ParseMap(events[n - 1].payload)) else f
  }

  // ----- the passes after the fold

  function Pinned(r: Recipe, id: string, pins: map<string, bool>): Recipe {
    if id in pins then r.(coreTopic := pins[id], menuSegment := Menu(pins[id])) else r
  }

  /** Totals and topic pins on every recipe, reply counts on every thread. */
  function Counted(f: Forum, pins: map<string, bool>): Forum {
    f.(recipes := map id | id in f.recipes :: Pinned(Totalled(f.recipes[id], id, f.ratings, f.thumbs), id, pins),
       threads := map id | id in f.threads ::
                    if id in f.replies then f.threads[id].(replyCount := |f.replies[id]|) else f.threads[id])
  }

  /** A thread is out of sight when it or its recipe is hidden. */
  predicate ThreadHidden(threads: map<string, Thread>, id: string, hidden: set<string>) {
    id in hidden || (id in threads && threads[id].recipe in hidden)
  }

  function Kept(replies: seq<Reply>, hidden: set<string>, n: nat): seq<Reply>
    requires n <= |replies|
  {
    if n == 0 then []
    else
      var r := replies[n - 1];
      if r.id in hidden || r.thread in hidden then Kept(replies, hidden, n - 1) else Kept(replies, hidden, n - 1) + [r]
  }

  /** First pass: hidden threads go, with the replies filed under them. */
  function WithoutThreads(f: Forum, hidden: set<string>): Forum {
    var gone := set id | id in f.threads && ThreadHidden(f.threads, id, hidden);
    f.(threads := f.threads - gone, replies := f.replies - gone)
  }

  /** Second pass: hidden replies go, and lists that become empty. */
  function WithoutReplies(f: Forum, hidden: set<string>): Forum {
    f.(replies := map id | id in f.replies && Kept(f.replies[id], hidden, |f.replies[id]|) != [] ::
                    Kept(f.replies[id], hidden, |f.replies[id]|))
  }

  /** Third pass: hidden recipes go. Last pass: replies are counted again. */
  function Recounted(f: Forum, hidden: set<string>): Forum {
    f.(recipes := f.recipes - hidden,
       threads := map id | id in f.threads :: f.threads[id].(replyCount := |RepliesTo(f.replies, id)|))
  }

  /** What `materialize_views` makes of the fold. */
  function Visible(f: Forum, pins: map<string, bool>, hidden: set<string>): Forum {
    Recounted(WithoutReplies(WithoutThreads(Counted(f, pins), hidden), hidden), hidden)
  }

  // ----- what is visible

  /** Recipes, threads and replies are filed under their own ids. */
  predicate Filed(f: Forum) {
    && (forall id | id in f.recipes :: f.recipes[id].id == id)
    && (forall id | id in f.threads :: f.threads[id].id == id)
    && (forall id | id in f.replies :: f.replies[id] != [] && forall r | r in f.replies[id] :: r.thread == id)
  }

  lemma {:induction false} PostedFiled(refused: map<string, Reason>, events: seq<Event>, n: nat)
    requires n <= |events|
    ensures Filed(Posted(refused, events, n))
  {
    hide ParseMap, PostValue;
    if n > 0 {
      PostedFiled(refused, events, n - 1);
    }
  }

  /** The replies anyone can see under a thread id: none if the thread is out of sight, else all but the hidden ones. */
  function Shown(all: Forum, hidden: set<string>, thread: string): seq<Reply> {
    if ThreadHidden(all.threads, thread, hidden) then []
    else Unhidden(RepliesTo(all.replies, thread), hidden, |RepliesTo(all.replies, thread)|)
  }

  function Unhidden(replies: seq<Reply>, hidden: set<string>, n: nat): seq<Reply>
    requires n <= |replies|
  {
    if n == 0 then []
    else if replies[n - 1].id in hidden then Unhidden(replies, hidden, n - 1)
    else Unhidden(replies, hidden, n - 1) + [replies[n - 1]]
  }

  lemma {:induction false} KeptIs(replies: seq<Reply>, hidden: set<string>, thread: string, n: nat)
    requires n <= |replies| && forall r | r in replies :: r.thread == thread
    ensures Kept(replies, hidden, n) == if thread in hidden then [] else Unhidden(replies, hidden, n)
  {
    if n > 0 {
      KeptIs(replies, hidden, thread, n - 1);
      assert replies[n - 1] in replies;
    }
  }

  lemma {:induction false} NothingHidden(replies: seq<Reply>, n: nat)
    requires n <= |replies|
    ensures Unhidden(replies, {}, n) == replies[..n]
  {
    if n > 0 {
      NothingHidden(replies, n - 1);
    }
  }

  lemma VisibleReplies(f: Forum, pins: map<string, bool>, hidden: set<string>, thread: string)
    requires Filed(f)
    ensures var r := Visible(f, pins, hidden).replies;
            RepliesTo(r, thread) == Shown(f, hidden, thread) && (thread in r ==> r[thread] != [])
  {
    hide Totalled, Pinned, Unhidden, Kept;
    if thread in f.replies {
      KeptIs(f.replies[thread], hidden, thread, |f.replies[thread]|);
    } else {
      assert |Shown(f, hidden, thread)| == 0 by { NoReplies(f, hidden, thread); }
    }
  }

  lemma NoReplies(f: Forum, hidden: set<string>, thread: string)
    requires thread !in f.replies
    ensures |Shown(f, hidden, thread)| == 0
  {
  }

  lemma VisibleThread(f: Forum, pins: map<string, bool>, hidden: set<string>, id: string)
    requires Filed(f)
    ensures var v := Visible(f, pins, hidden);
            && (id in v.threads <==> id in f.threads && !ThreadHidden(f.threads, id, hidden))
            && (id in v.threads ==> v.threads[id] == f.threads[id].(replyCount := |Shown(f, hidden, id)|))
  {
    hide Totalled, Pinned, Shown, Kept;
    VisibleReplies(f, pins, hidden, id);
  }

  lemma VisibleRecipes(f: Forum, pins: map<string, bool>, hidden: set<string>)
    ensures Visible(f, pins, hidden).recipes == Counted(f, pins).recipes - hidden
  {
  }

  /** Without hidden objects, moderation passes drop no thread and no reply. */
  lemma Unmoderated(f: Forum, pins: map<string, bool>, id: string)
    requires Filed(f)
    ensures var all := Visible(f, pins, {});
            && RepliesTo(all.replies, id) == RepliesTo(f.replies, id)
            && (id in all.threads <==> id in f.threads)
            && (id in f.threads ==> all.threads[id] == f.threads[id].(replyCount := |RepliesTo(f.replies, id)|))
  {
    hide Visible, Filed;
    VisibleReplies(f, pins, {}, id);
    VisibleThread(f, pins, {}, id);
    var replies := RepliesTo(f.replies, id);
    NothingHidden(replies, |replies|);
    assert replies[..|replies|] == replies;
  }

  lemma HidesOnly(f: Forum, pins: map<string, bool>, hidden: set<string>, id: string)
    requires Filed(f)
    ensures var all, v := Visible(f, pins, {}), Visible(f, pins, hidden);
            && (id in v.recipes <==> id in all.recipes && id !in hidden)
            && (id in v.recipes ==> v.recipes[id] == all.recipes[id])
            && (id in v.threads <==> id in all.threads && id !in hidden && all.threads[id].recipe !in hidden)
            && (id in v.threads ==> v.threads[id] == all.threads[id].(replyCount := |RepliesTo(v.replies, id)|))
            && RepliesTo(v.replies, id) == Shown(all, hidden, id)
            && (id in v.replies <==> Shown(all, hidden, id) != [])
  {
    hide Visible, Filed, Counted, Unhidden;
    VisibleRecipes(f, pins, {});
    VisibleRecipes(f, pins, hidden);
    VisibleThread(f, pins, hidden, id);
    VisibleReplies(f, pins, hidden, id);
    Unmoderated(f, pins, id);
  }

  /**
   * The moderated views of any replay are its unmoderated ones minus what is hidden, and nothing else: recipes by their
   * own id, threads by their own id or their recipe's, replies by their own id or with their thread. Every thread
   * counts exactly the replies that can be seen.
   */
  lemma ModerationOnlyHides(refused: map<string, Reason>, events: seq<Event>, pins: map<string, bool>, hidden: set<string>, id: string)
    ensures var f := Posted(refused, events, |events|);
            var all, v := Visible(f, pins, {}), Visible(f, pins, hidden);
            && (id in v.recipes <==> id in all.recipes && id !in hidden)
            && (id in v.recipes ==> v.recipes[id] == all.recipes[id])
            && (id in v.threads <==> id in all.threads && id !in hidden && all.threads[id].recipe !in hidden)
            && (id in v.threads ==> v.threads[id] == all.threads[id].(replyCount := |RepliesTo(v.replies, id)|))
            && RepliesTo(v.replies, id) == Shown(all, hidden, id)
            && (id in v.replies <==> Shown(all, hidden, id) != [])
  {
    hide Visible, Filed, Posted, Shown, RepliesTo;
    PostedFiled(refused, events, |events|);
    HidesOnly(Posted(refused, events, |events|), pins, hidden, id);
  }

  /** The accepted replies to a thread, in replay order. */
  function RepliesGiven(refused: map<string, Reason>, events: seq<Event>, n: nat, thread: string): seq<Reply>
    requires n <= |events|
  {
    if n == 0 then []
    else
      var e := events[n - 1];
      var r := NewReply(e, ParseMap(e.payload));
      if e.kind.ReplyCreated? && Accepted(refused, e) && thread != "" && r.thread == thread
      then RepliesGiven(refused, events, n - 1, thread) + [r]
      else RepliesGiven(refused, events, n - 1, thread)
  }

  lemma PostKeepsReplies(f: Forum, e: Event, payload: map<string, string>, thread: string)
    requires thread == "" ==> thread !in f.replies
    ensures var r, f' := NewReply(e, payload), Post(f, e, payload);
            && RepliesTo(f'.replies, thread) ==
                 (if e.kind.ReplyCreated? && thread != "" && r.thread == thread
                  then RepliesTo(f.replies, thread) + [r] else RepliesTo(f.replies, thread))
            && (thread == "" ==> thread !in f'.replies)
  {
    hide PostValue, Totalled, ParseI32OrZero, IsYes;
  }

  /** Under every thread id lie exactly the accepted replies to it, in replay order. */
  lemma {:induction false} PostedReplies(refused: map<string, Reason>, events: seq<Event>, n: nat, thread: string)
    requires n <= |events|
    ensures var f := Posted(refused, events, n);
            RepliesTo(f.replies, thread) == RepliesGiven(refused, events, n, thread) && (thread == "" ==> thread !in f.replies)
  {
    hide Post, ParseMap, NewReply;
    if n > 0 {
      PostedReplies(refused, events, n - 1, thread);
      PostKeepsReplies(Posted(refused, events, n - 1), events[n - 1], ParseMap(events[n - 1].payload), thread);
    }
  }

  // ----- totals

  predicate Reviews(refused: map<string, Reason>, e: Event, id: string) {
    e.kind.ReviewAdded? && Accepted(refused, e) && id != "" && Field(ParseMap(e.payload), "recipe_id", "") == id
  }

  predicate Likes(refused: map<string, Reason>, e: Event, id: string) {
    e.kind.ThumbsUpAdded? && Accepted(refused, e) && id != "" && Field(ParseMap(e.payload), "recipe_id", "") == id
  }

  /** The ratings of all accepted reviews of a recipe. */
  function RatingsGiven(refused: map<string, Reason>, events: seq<Event>, n: nat, id: string): seq<int>
    requires n <= |events|
  {
    if n == 0 then []
    else if Reviews(refused, events[n - 1], id) then
      RatingsGiven(refused, events, n - 1, id) + [ParseI32OrZero(Field(ParseMap(events[n - 1].payload), "rating", "0"))]
    else RatingsGiven(refused, events, n - 1, id)
  }

  function LikesGiven(refused: map<string, Reason>, events: seq<Event>, n: nat, id: string): nat
    requires n <= |events|
  {
    if n == 0 then 0
    else LikesGiven(refused, events, n - 1, id) + if Likes(refused, events[n - 1], id) then 1 else 0
  }

  function Sum(s: seq<int>, n: nat): int
    requires n <= |s|
  {
    if n == 0 then 0 else Sum(s, n - 1) + s[n - 1]
  }

  lemma {:induction false} SumAppend(s: seq<int>, x: int, n: nat)
    requires n <= |s|
    ensures Sum(s + [x], n) == Sum(s, n)
  {
    if n > 0 {
      SumAppend(s, x, n - 1);
    }
  }

  /** The running totals of one recipe, and its summary as long as there are none. */
  predicate TotalsOk(f: Forum, id: string, given: seq<int>, likes: nat) {
    && RatingOf(f.ratings, id) == Rating(Sum(given, |given|), |given|)
    && (id in f.ratings <==> given != [])
    && ThumbsOf(f.thumbs, id) == likes && (id in f.thumbs <==> likes > 0)
    && (id in f.recipes && given == [] ==> f.recipes[id].reviewCount == 0 && f.recipes[id].averageRating == 0.0)
    && (id in f.recipes && likes == 0 ==> f.recipes[id].thumbsUp == 0)
  }

  lemma PostRecipeTotals(f: Forum, r: Recipe, id: string, given: seq<int>, likes: nat)
    requires TotalsOk(f, id, given, likes) && r.reviewCount == 0 && r.averageRating == 0.0 && r.thumbsUp == 0
    ensures TotalsOk(PostRecipe(f, r), id, given, likes)
  {
    hide Sum;
  }

  lemma PostReviewTotals(f: Forum, recipe: string, rating: int, id: string, given: seq<int>, likes: nat)
    requires TotalsOk(f, id, given, likes)
    ensures TotalsOk(PostReview(f, recipe, rating), id, if id != "" && recipe == id then given + [rating] else given, likes)
  {
    SumAppend(given, rating, |given|);
  }

  lemma PostThumbTotals(f: Forum, recipe: string, id: string, given: seq<int>, likes: nat)
    requires TotalsOk(f, id, given, likes)
    ensures TotalsOk(PostThumb(f, recipe), id, given, if id != "" && recipe == id then likes + 1 else likes)
  {
    hide Sum;
  }

  lemma PostTotals(f: Forum, e: Event, payload: map<string, string>, id: string, given: seq<int>, likes: nat)
    requires TotalsOk(f, id, given, likes)
    ensures var about := id != "" && Field(payload, "recipe_id", "") == id;
            var rating := ParseI32OrZero(Field(payload, "rating", "0"));
            TotalsOk(Post(f, e, payload), id,
                     if e.kind.ReviewAdded? && about then given + [rating] else given,
                     if e.kind.ThumbsUpAdded? && about then likes + 1 else likes)
  {
    hide ParseI32OrZero, IsYes, PostValue, PostRecipe, PostReview, PostThumb, Sum;
    var recipe := Field(payload, "recipe_id", "");
    match e.kind
    case RecipeCreated => PostRecipeTotals(f, BareRecipe(e, payload), id, given, likes);
    case ReviewAdded => PostReviewTotals(f, recipe, ParseI32OrZero(Field(payload, "rating", "0")), id, given, likes);
    case ThumbsUpAdded => PostThumbTotals(f, recipe, id, given, likes);
    case _ =>
  }

  lemma {:induction false} PostedTotals(refused: map<string, Reason>, events: seq<Event>, n: nat, id: string)
    requires n <= |events|
    ensures TotalsOk(Posted(refused, events, n), id, RatingsGiven(refused, events, n, id), LikesGiven(refused, events, n, id))
  {
    hide TotalsOk, Post, ParseMap, ParseI32OrZero;
    if n == 0 {
      assert TotalsOk(NOTHING, id, [], 0) by { NoTotals(id); }
    } else {
      PostedTotals(refused, events, n - 1, id);
      var e := events[n - 1];
      PostTotals(Posted(refused, events, n - 1), e, ParseMap(e.payload), id,
                 RatingsGiven(refused, events, n - 1, id), LikesGiven(refused, events, n - 1, id));
    }
  }

  lemma NoTotals(id: string)
    ensures TotalsOk(NOTHING, id, [], 0)
  {
  }

  /**
   * Every visible recipe shows exactly the accepted reviews and thumbs-ups that name it, whether they came before or
   * after the recipe itself, and the mean of their ratings.
   */
  lemma RecipeTotals(refused: map<string, Reason>, events: seq<Event>, pins: map<string, bool>, hidden: set<string>, id: string)
    requires id in Visible(Posted(refused, events, |events|), pins, hidden).recipes
    ensures var r := Visible(Posted(refused, events, |events|), pins, hidden).recipes[id];
            var given := RatingsGiven(refused, events, |events|, id);
            && r.reviewCount == |given| && r.thumbsUp == LikesGiven(refused, events, |events|, id)
            && r.averageRating == if given == [] then 0.0 else Sum(given, |given|) as real / |given| as real
  {
    hide Posted, RatingsGiven, LikesGiven, Sum;
    PostedTotals(refused, events, |events|, id);
  }

  // ----- the whole replay

  /** The views a store materializes, given the starting policy. */
  function ForumOf(econ: Econ, policy: Policy, c: Chain): Forum {
    var m := ModerationOf(policy, c);
    Visible(Posted(Materialized(econ, c).refused, Ordered(c), |Ordered(c)|), m.pins, m.hidden)
  }

  /** Ledger, moderation and views: none depends on the order the events arrived in. */
  lemma ReplayIgnoresArrival(econ: Econ, policy: Policy, c: Chain, d: Chain)
    requires UniqueIds(c.events) && multiset(c.events) == multiset(d.events) && c.blocks == d.blocks
    ensures Materialized(econ, c) == Materialized(econ, d)
    ensures ModerationOf(policy, c) == ModerationOf(policy, d)
    ensures ForumOf(econ, policy, c) == ForumOf(econ, policy, d)
  {
    hide Ordered, Economy, Moderated, Posted, Visible;
    ArrivalIrrelevant(c, d);
  }
}
