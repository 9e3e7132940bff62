/** What a post shows. */
module ForumPosts {
  import opened Types
  import opened Decimal
  import opened Canonical
  import opened Ledger
  import opened Views
  import opened Entitlement

  /** The field, or what stands in for it. */
  predicate Tells(p: map<string, string>, key: string, default: string, value: string) {
    if key in p then value == p[key] else value == default
  }

  predicate Affirms(p: map<string, string>, key: string) { key in p && p[key] in ["1", "true", "TRUE", "yes", "YES"] }

  predicate MenuFits(core: bool, menu: string) { (core ==> menu == "core-menu") && (!core ==> menu == "community-post") }

  // ----- what the three kinds of posts say

  predicate ThreadSays(e: Event, t: Thread) {
    var p := ParseMap(e.payload);
    && e.kind.ThreadCreated? && t.source == e.id && t.author == e.author && t.updated == e.ts
    && Tells(p, "thread_id", e.id, t.id) && Tells(p, "recipe_id", "", t.recipe) && Tells(p, "title", "Untitled thread", t.title)
    && Offers(e, t.value)
  }

  predicate ReplySays(e: Event, r: Reply) {
    var p := ParseMap(e.payload);
    && e.kind.ReplyCreated? && r.source == e.id && r.author == e.author && r.updated == e.ts
    && Tells(p, "reply_id", e.id, r.id) && Tells(p, "thread_id", "", r.thread) && Tells(p, "markdown", "", r.markdown)
    && Offers(e, r.value)
  }

  /** Everything a recipe says but its place on the menu. */
  predicate RecipeSays(e: Event, r: Recipe) {
    var p := ParseMap(e.payload);
    && e.kind.RecipeCreated? && r.source == e.id && r.author == e.author && r.updated == e.ts
    && Tells(p, "recipe_id", e.id, r.id) && Tells(p, "title", "Untitled recipe", r.title)
    && Tells(p, "category", "General", r.category) && Offers(e, r.value)
  }

  /** A topic is a core topic as a moderator last pinned it, or else as it says itself. */
  predicate MenuSays(e: Event, pins: map<string, bool>, id: string, r: Recipe) {
    var p := ParseMap(e.payload);
    if id in pins then r.coreTopic == pins[id] && MenuFits(r.coreTopic, r.menuSegment)
    else
      && (r.coreTopic <==> Affirms(p, "core_topic") || Affirms(p, "moderator_core"))
      && (if "menu_segment" in p then r.menuSegment == p["menu_segment"] else MenuFits(r.coreTopic, r.menuSegment))
  }

  lemma NewThreadSays(e: Event)
    requires e.kind.ThreadCreated?
    ensures ThreadSays(e, NewThread(e, ParseMap(e.payload)))
  {
    hide ParseMap, ParseI64OrZero;
  }

  lemma NewReplySays(e: Event)
    requires e.kind.ReplyCreated?
    ensures ReplySays(e, NewReply(e, ParseMap(e.payload)))
  {
    hide ParseMap, ParseI64OrZero;
  }

  lemma BareRecipeSays(e: Event)
    requires e.kind.RecipeCreated?
    ensures var r := BareRecipe(e, ParseMap(e.payload)); RecipeSays(e, r) && MenuSays(e, map[], r.id, r)
  {
    hide ParseMap, ParseI64OrZero;
  }

  // ----- which post an id shows

  /** A post of this kind that was not refused and names the id. */
  predicate Names(refused: map<string, Reason>, e: Event, key: string, id: string) {
    e.id !in refused && Tells(ParseMap(e.payload), key, e.id, id)
  }

  predicate NamesThread(refused: map<string, Reason>, e: Event, id: string) {
    e.kind.ThreadCreated? && Names(refused, e, "thread_id", id)
  }

  predicate NamesRecipeId(refused: map<string, Reason>, e: Event, id: string) {
    e.kind.RecipeCreated? && Names(refused, e, "recipe_id", id)
  }

  /** The last of the first `n` events that is such a thread, or `n`. */
  function LastThread(refused: map<string, Reason>, events: seq<Event>, n: nat, id: string): (i: nat)
    requires n <= |events|
    ensures i <= n && (i < n ==> NamesThread(refused, events[i], id))
    ensures forall j | (if i < n then i + 1 else 0) <= j < n :: !NamesThread(refused, events[j], id)
  {
    if n == 0 then 0
    else if NamesThread(refused, events[n - 1], id) then n - 1
    else
      var i := LastThread(refused, events, n - 1, id);
      if i == n - 1 then n else i
  }

  /** The last of the first `n` events that is such a recipe, or `n`. */
  function LastRecipe(refused: map<string, Reason>, events: seq<Event>, n: nat, id: string): (i: nat)
    requires n <= |events|
    ensures i <= n && (i < n ==> NamesRecipeId(refused, events[i], id))
    ensures forall j | (if i < n then i + 1 else 0) <= j < n :: !NamesRecipeId(refused, events[j], id)
  {
    if n == 0 then 0
    else if NamesRecipeId(refused, events[n - 1], id) then n - 1
    else
      var i := LastRecipe(refused, events, n - 1, id);
      if i == n - 1 then n else i
  }

  lemma PostThreads(refused: map<string, Reason>, f: Forum, e: Event, id: string)
    requires Accepted(refused, e)
    ensures var f' := Post(f, e, ParseMap(e.payload));
            if NamesThread(refused, e, id) then id in f'.threads && f'.threads[id] == NewThread(e, ParseMap(e.payload))
            else (id in f'.threads <==> id in f.threads) && (id in f.threads ==> f'.threads[id] == f.threads[id])
  {
    hide ParseMap, PostValue, PostRecipe, PostReply, PostReview, PostThumb;
    if !e.kind.ThreadCreated? {
      OthersKeepThreads(f, e, ParseMap(e.payload));
    }
  }

  lemma OthersKeepThreads(f: Forum, e: Event, p: map<string, string>)
    requires !e.kind.ThreadCreated?
    ensures Post(f, e, p).threads == f.threads
  {
    hide PostValue, ParseI32OrZero, BareRecipe, NewReply, Totalled, RatingOf, ThumbsOf;
  }

  /** A thread id shows the last accepted thread that names it, and is there if and only if there is one. */
  lemma {:induction false} PostedThreads(refused: map<string, Reason>, events: seq<Event>, n: nat, id: string)
    requires n <= |events|
    ensures var f, i := Posted(refused, events, n), LastThread(refused, events, n, id);
            && (id in f.threads <==> i < n)
            && (i < n ==> ThreadSays(events[i], f.threads[id]) && f.threads[id].id == id && f.threads[id].replyCount == 0)
  {
    hide Post, ParseMap, ThreadSays, NewThread, Tells;
    if n > 0 {
      var e := events[n - 1];
      PostedThreads(refused, events, n - 1, id);
      if Accepted(refused, e) {
        PostThreads(refused, Posted(refused, events, n - 1), e, id);
        if NamesThread(refused, e, id) {
          NewThreadSays(e);
          ThreadId(e, id);
        }
      }
    }
  }

  lemma ThreadId(e: Event, id: string)
    requires Tells(ParseMap(e.payload), "thread_id", e.id, id)
    ensures NewThread(e, ParseMap(e.payload)).id == id && NewThread(e, ParseMap(e.payload)).replyCount == 0
  {
    hide ParseMap, PostValue;
  }

  /** The summary without its totals. */
  function Untotalled(r: Recipe): Recipe { r.(averageRating := 0.0, reviewCount := 0, thumbsUp := 0) }

  lemma TotalsOnly(r: Recipe, id: string, ratings: map<string, Rating>, thumbs: map<string, nat>)
    ensures Untotalled(Totalled(r, id, ratings, thumbs)) == Untotalled(r)
  {
  }

  lemma PostRecipes(refused: map<string, Reason>, f: Forum, e: Event, id: string)
    requires Accepted(refused, e)
    ensures var f' := Post(f, e, ParseMap(e.payload));
            if NamesRecipeId(refused, e, id)
            then id in f'.recipes && Untotalled(f'.recipes[id]) == Untotalled(BareRecipe(e, ParseMap(e.payload)))
            else (id in f'.recipes <==> id in f.recipes) && (id in f.recipes ==> f'.recipes[id] == f.recipes[id])
  {
    hide ParseMap, PostValue, ParseI32OrZero, Totalled, SaysYes, Menu, NewThread, NewReply;
    if e.kind.RecipeCreated? {
      var r := BareRecipe(e, ParseMap(e.payload));
      TotalsOnly(r, r.id, f.ratings, f.thumbs);
    }
  }

  lemma {:induction false} PostedRecipes(refused: map<string, Reason>, events: seq<Event>, n: nat, id: string)
    requires n <= |events|
    ensures var f, i := Posted(refused, events, n), LastRecipe(refused, events, n, id);
            && (id in f.recipes <==> i < n)
            && (i < n ==> Untotalled(f.recipes[id]) == Untotalled(BareRecipe(events[i], ParseMap(events[i].payload))))
  {
    hide Post, ParseMap, BareRecipe, Tells, Untotalled;
    if n > 0 {
      var e := events[n - 1];
      PostedRecipes(refused, events, n - 1, id);
      if Accepted(refused, e) {
        PostRecipes(refused, Posted(refused, events, n - 1), e, id);
      }
    }
  }

  lemma SameWords(e: Event, a: Recipe, b: Recipe, pins: map<string, bool>, id: string)
    requires Untotalled(a) == Untotalled(b)
    ensures RecipeSays(e, a) == RecipeSays(e, b) && a.id == b.id
    ensures MenuSays(e, pins, id, a) == MenuSays(e, pins, id, b)
  {
    hide ParseMap, Offers, Affirms;
    assert a.title == Untotalled(a).title && a.category == Untotalled(a).category && a.id == Untotalled(a).id;
    assert a.menuSegment == Untotalled(a).menuSegment && a.value == Untotalled(a).value;
  }

  /** A visible recipe shows the last accepted recipe that names its id, with the menu place moderators gave it. */
  lemma RecipeShown(refused: map<string, Reason>, events: seq<Event>, pins: map<string, bool>, hidden: set<string>, id: string)
    ensures var v, i := Visible(Posted(refused, events, |events|), pins, hidden),
                        LastRecipe(refused, events, |events|, id);
            && (id in v.recipes <==> i < |events| && id !in hidden)
            && (id in v.recipes ==>
                 RecipeSays(events[i], v.recipes[id]) && v.recipes[id].id == id && MenuSays(events[i], pins, id, v.recipes[id]))
  {
    hide Posted, ParseMap, BareRecipe, Tells, RecipeSays, MenuSays, Untotalled, Totalled, Visible;
    var f := Posted(refused, events, |events|);
    PostedRecipes(refused, events, |events|, id);
    VisibleRecipes(f, pins, hidden);
    var i := LastRecipe(refused, events, |events|, id);
    if i < |events| {
      var e, bare := events[i], BareRecipe(events[i], ParseMap(events[i].payload));
      BareRecipeSays(e);
      RecipeId(e, id);
      var total := Totalled(f.recipes[id], id, f.ratings, f.thumbs);
      TotalsOnly(f.recipes[id], id, f.ratings, f.thumbs);
      PinnedSays(e, bare, total, id, pins);
    }
  }

  lemma RecipeId(e: Event, id: string)
    requires Tells(ParseMap(e.payload), "recipe_id", e.id, id)
    ensures BareRecipe(e, ParseMap(e.payload)).id == id
  {
    hide ParseMap, PostValue, SaysYes;
  }

  lemma PinnedSays(e: Event, bare: Recipe, total: Recipe, id: string, pins: map<string, bool>)
    requires RecipeSays(e, bare) && MenuSays(e, map[], id, bare) && Untotalled(total) == Untotalled(bare)
    ensures var r := Pinned(total, id, pins); RecipeSays(e, r) && MenuSays(e, pins, id, r) && r.id == bare.id
  {
    hide ParseMap, Offers, Affirms, Untotalled;
    SameWords(e, total, bare, map[], id);
  }

  /** A visible thread shows the last accepted thread that names its id. */
  lemma ThreadShown(refused: map<string, Reason>, events: seq<Event>, pins: map<string, bool>, hidden: set<string>, id: string)
    ensures var v, i := Visible(Posted(refused, events, |events|), pins, hidden),
                        LastThread(refused, events, |events|, id);
            id in v.threads ==> i < |events| && ThreadSays(events[i], v.threads[id]) && v.threads[id].id == id
  {
    hide Posted, ParseMap, ThreadSays, Visible, Tells, Filed, Shown;
    PostedFiled(refused, events, |events|);
    PostedThreads(refused, events, |events|, id);
    VisibleThread(Posted(refused, events, |events|), pins, hidden, id);
    var f := Posted(refused, events, |events|);
    if id in f.threads {
      CountSays(events[LastThread(refused, events, |events|, id)], f.threads[id], |Views.Shown(f, hidden, id)|);
    }
  }

  lemma CountSays(e: Event, t: Thread, count: nat)
    ensures ThreadSays(e, t) == ThreadSays(e, t.(replyCount := count))
  {
    hide ParseMap, Offers, Tells;
  }

  /** Every reply anyone can see was posted by an accepted event that says just that. */
  lemma {:induction false} ReplyPosted(refused: map<string, Reason>, events: seq<Event>, n: nat, thread: string, k: nat)
    requires n <= |events| && k < |RepliesGiven(refused, events, n, thread)|
    ensures exists i | 0 <= i < n ::
              ReplySays(events[i], RepliesGiven(refused, events, n, thread)[k]) && events[i].id !in refused
  {
    hide ParseMap, NewReply, ReplySays;
    var e := events[n - 1];
    if k < |RepliesGiven(refused, events, n - 1, thread)| {
      ReplyPosted(refused, events, n - 1, thread, k);
    } else {
      NewReplySays(e);
    }
  }
}
