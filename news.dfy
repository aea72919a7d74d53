/** `controllers/newsController.js`: club news, either general or addressed
    to groups. Who may post which kind, how the target groups are
    normalised, soft deletion and pinning. */
module NewsFeed {
  import opened Common
  import opened Entities
  import opened Store

  /** Any of the four flags of `roleFlags`. */
  predicate MayPublish(a: Actor)
  {
    Includes(a.userType, Admin) || Includes(a.userType, Director) || Includes(a.userType, Trainer) || Includes(a.userType, Manager)
  }

  /** Who may post group news. */
  predicate MayPostGroup(a: Actor)
  {
    Includes(a.userType, Trainer) || IsAdminOrDirector(a)
  }

  /** Who may post general news. */
  predicate MayPostGeneral(a: Actor)
  {
    Includes(a.userType, Manager) || IsAdminOrDirector(a)
  }

  function TypeName(t: NewsType): string
  {
    match t
    case GroupNews => "group"
    case GeneralNews => "general"
  }

  /** The schema's enum on `newsType`. */
  function ParseNewsType(s: string): (r: Option<NewsType>)
    ensures r.Some? <==> s == "group" || s == "general"
    ensures r.Some? ==> TypeName(r.value) == s
  {
    if s == "group" then Some(GroupNews) else if s == "general" then Some(GeneralNews) else None
  }

  /** The type of a new item: the requested one when given, otherwise
      "group" for a trainer and "general" for everyone else. */
  function ResolveType(a: Actor, newsType: Option<string>): string
  {
    if Given(newsType) then newsType.value else if Includes(a.userType, Trainer) then "group" else "general"
  }

  /** The target normalisation: general news has none; otherwise an array is
      kept, a single id wrapped and a falsy value dropped. */
  function NormalizeTargets(typeName: string, targets: OneOrMany<Id>): (r: seq<Id>)
    ensures typeName == "general" ==> r == []
    ensures typeName != "general" ==> r == StringList(targets)
  {
    if typeName == "general" then [] else StringList(targets)
  }

  /** What the schema demands of a stored item: a title, a content and a
      known category (the type is a `NewsType` already). */
  predicate NewsValid(n: News)
  {
    n.title != "" && n.content != "" && n.category in NewsCategories
  }

  /** The request body of `createNews`. */
  datatype NewsForm = NewsForm(
    title: Option<string>,
    content: Option<string>,
    category: Option<string>,
    images: Option<seq<string>>,
    targetGroups: OneOrMany<Id>,
    isPinned: Option<bool>,
    newsType: Option<string>)

  /** The checks of `createNews`, in order, and the item it stores. A type
      outside the enum passes the permission checks and fails validation
      (500), like a missing title or content or an unknown category. */
  function CheckCreate(a: Actor, f: NewsForm): (r: Result<News>)
    ensures !MayPublish(a) ==> r == Fail(Forbidden)
    ensures (MayPublish(a) && ResolveType(a, f.newsType) == "group" && !MayPostGroup(a)) ==> r == Fail(Forbidden)
    ensures (MayPublish(a) && ResolveType(a, f.newsType) == "general" && !MayPostGeneral(a)) ==> r == Fail(Forbidden)
    ensures (MayPublish(a) && ResolveType(a, f.newsType) == "group" && MayPostGroup(a) && |StringList(f.targetGroups)| == 0) ==>
      r == Fail(BadRequest)
    ensures r.Ok? ==>
      && MayPublish(a) && NewsValid(r.value)
      && TypeName(r.value.newsType) == ResolveType(a, f.newsType)
      && r.value.authorId == a.id && r.value.isActive
      && (r.value.newsType == GroupNews ==> MayPostGroup(a) && |r.value.targetGroups| > 0 && r.value.targetGroups == StringList(f.targetGroups))
      && (r.value.newsType == GeneralNews ==> MayPostGeneral(a) && r.value.targetGroups == [])
      && r.value.isPinned == (f.isPinned == Some(true))
      && r.value.category == (if Given(f.category) then f.category.value else "general")
      && r.value.images == (if f.images.Some? then f.images.value else [])
    ensures r.Ok? ==> Some(r.value.title) == f.title && Some(r.value.content) == f.content
    ensures r.Ok? <==>
      && MayPublish(a)
      && (ResolveType(a, f.newsType) == "group" ==> MayPostGroup(a) && |StringList(f.targetGroups)| > 0)
      && (ResolveType(a, f.newsType) == "general" ==> MayPostGeneral(a))
      && ParseNewsType(ResolveType(a, f.newsType)).Some?
      && Given(f.title) && Given(f.content)
      && (if Given(f.category) then f.category.value else "general") in NewsCategories
  {
    var resolved := ResolveType(a, f.newsType);
    if !MayPublish(a) then Fail(Forbidden)
    else if resolved == "group" && !MayPostGroup(a) then Fail(Forbidden)
    else if resolved == "general" && !MayPostGeneral(a) then Fail(Forbidden)
    else
      var targets := NormalizeTargets(resolved, f.targetGroups);
      if resolved == "group" && |targets| == 0 then Fail(BadRequest)
      else
        var kind := ParseNewsType(resolved);
        if kind.None? then Fail(ServerError)
        else
          var n := News(OrEmpty(f.title), OrEmpty(f.content), kind.value,
                        if Given(f.category) then f.category.value else "general",
                        if f.images.Some? then f.images.value else [], targets, a.id,
                        f.isPinned == Some(true), true);
          if !NewsValid(n) then Fail(ServerError) else Ok(n)
  }

  /** Leaving the type out never costs a permitted author the permission
      check: a trainer gets group news, anyone else general news, and each
      may post that kind. */
  lemma DefaultTypePermitted(a: Actor, f: NewsForm)
    requires MayPublish(a) && !Given(f.newsType)
    ensures CheckCreate(a, f) != Fail(Forbidden)
    ensures CheckCreate(a, f).Ok? ==>
      CheckCreate(a, f).value.newsType == (if Includes(a.userType, Trainer) then GroupNews else GeneralNews)
  {
  }

  /** `createNews`; `newsId` is the id the database assigns. */
  method CreateNews(db: Db, a: Actor, f: NewsForm, newsId: Id) returns (r: Result<News>)
    requires newsId !in db.news
    modifies db`news
    ensures r == CheckCreate(a, f)
    ensures db.news == if r.Ok? then old(db.news)[newsId := r.value] else old(db.news)
  {
    r := CheckCreate(a, f);
    if r.Ok? {
      db.news := db.news[newsId := r.value];
    }
  }

  /** The filter of `getAllNews`: active items, of a category when one is
      asked for; `type` "general" or "group" selects a kind (group news
      optionally of one group); a group without a type selects general news
      and that group's news. */
  predicate Listed(n: News, category: Option<string>, groupId: Option<Id>, kind: Option<string>)
  {
    && n.isActive
    && (Given(category) ==> n.category == category.value)
    && (if kind == Some("general") then n.newsType == GeneralNews
        else if kind == Some("group") then n.newsType == GroupNews && (Given(groupId) ==> groupId.value in n.targetGroups)
        else Given(groupId) ==> n.newsType == GeneralNews || groupId.value in n.targetGroups)
  }

  /** `getAllNews`, as a set of ids: the order is not part of this model. */
  function GetAllNews(news: map<Id, News>, category: Option<string>, groupId: Option<Id>, kind: Option<string>): (r: set<Id>)
    ensures forall id :: id in r ==> id in news && news[id].isActive
    ensures forall id :: id in r && kind == Some("general") ==> news[id].newsType == GeneralNews
    ensures forall id :: id in r && Given(groupId) && kind != Some("general") && news[id].newsType == GroupNews ==>
      groupId.value in news[id].targetGroups
    ensures forall id :: id in r && Given(category) ==> news[id].category == category.value
    ensures forall id :: id in news && news[id].isActive ==>
      (id in r <==>
         && (Given(category) ==> news[id].category == category.value)
         && (kind == Some("general") ==> news[id].newsType == GeneralNews)
         && (kind == Some("group") ==> news[id].newsType == GroupNews)
         && (Given(groupId) && news[id].newsType == GroupNews ==> groupId.value in news[id].targetGroups))
    ensures !Given(category) && !Given(groupId) && kind.None? ==> forall id :: id in r <==> id in news && news[id].isActive
  {
    set id | id in news && Listed(news[id], category, groupId, kind)
  }

  /** `getNewsById`: an inactive item is answered like a missing one. */
  function GetNewsById(news: map<Id, News>, id: Id): (r: Result<News>)
    ensures r.Ok? <==> id in news && news[id].isActive
    ensures r.Ok? ==> r.value == news[id]
    ensures r.Fail? ==> r.code == NotFound
  {
    if id !in news || !news[id].isActive then Fail(NotFound) else Ok(news[id])
  }

  /** The request body of `updateNews`: `None` is an omitted field;
      `targetGroups` may be present but falsy, `Some(Missing)`. */
  datatype NewsPatch = NewsPatch(
    title: Option<string>,
    content: Option<string>,
    category: Option<string>,
    images: Option<seq<string>>,
    targetGroups: Option<OneOrMany<Id>>,
    isPinned: Option<bool>,
    newsType: Option<string>)

  /** The fields `updateNews` assigns: truthy title, content, category and
      type; defined images, targets and pin. A new general type clears the
      targets, and new targets are normalised against the type after the
      update. `kind` is the parsed new type. */
  function Patched(n: News, p: NewsPatch, kind: NewsType): (m: News)
    requires Given(p.newsType) ==> ParseNewsType(p.newsType.value) == Some(kind)
    requires !Given(p.newsType) ==> kind == n.newsType
    ensures m.authorId == n.authorId && m.isActive == n.isActive && m.newsType == kind
    ensures p.newsType == Some("general") ==> m.targetGroups == []
    ensures p.targetGroups.None? && p.newsType != Some("general") ==> m.targetGroups == n.targetGroups
    ensures p.targetGroups.Some? ==> m.targetGroups == NormalizeTargets(TypeName(kind), p.targetGroups.value)
    ensures m.title == (if Given(p.title) then p.title.value else n.title)
    ensures m.content == (if Given(p.content) then p.content.value else n.content)
    ensures m.category == (if Given(p.category) then p.category.value else n.category)
    ensures m.images == (if p.images.Some? then p.images.value else n.images)
    ensures m.isPinned == (if p.isPinned.Some? then p.isPinned.value else n.isPinned)
  {
    var targets := if p.newsType == Some("general") then [] else n.targetGroups;
    n.(title := if Given(p.title) then p.title.value else n.title,
       content := if Given(p.content) then p.content.value else n.content,
       category := if Given(p.category) then p.category.value else n.category,
       images := if p.images.Some? then p.images.value else n.images,
       newsType := kind,
       targetGroups := if p.targetGroups.Some? then NormalizeTargets(TypeName(kind), p.targetGroups.value) else targets,
       isPinned := if p.isPinned.Some? then p.isPinned.value else n.isPinned)
  }

  /** The type an update leaves: the given one when it parses, otherwise
      the item's own. */
  function NewKind(n: News, p: NewsPatch): (k: NewsType)
    ensures Given(p.newsType) && ParseNewsType(p.newsType.value).Some? ==> ParseNewsType(p.newsType.value) == Some(k)
    ensures !Given(p.newsType) ==> k == n.newsType
  {
    if Given(p.newsType) && ParseNewsType(p.newsType.value).Some? then ParseNewsType(p.newsType.value).value else n.newsType
  }

  /** The checks of `updateNews` on a stored item and the item it saves:
      only the author or an admin or director; only an admin or director
      changes the type; "general" and "group" then need the posting rights
      of that kind. `save` validates the whole item (500). */
  function UpdateOutcome(n: News, a: Actor, p: NewsPatch): (r: Result<News>)
    ensures !IsAdminOrDirector(a) && n.authorId != a.id ==> r == Fail(Forbidden)
    ensures r.Ok? ==> IsAdminOrDirector(a) || n.authorId == a.id
    ensures r.Ok? && r.value.newsType != n.newsType ==> IsAdminOrDirector(a)
    ensures r.Ok? && p.newsType == Some("general") ==> MayPostGeneral(a) && r.value.newsType == GeneralNews && r.value.targetGroups == []
    ensures r.Ok? && p.newsType == Some("group") ==> MayPostGroup(a) && r.value.newsType == GroupNews
    ensures r.Ok? ==> NewsValid(r.value) && r.value.authorId == n.authorId && r.value.isActive == n.isActive
    ensures r.Ok? <==>
      && (IsAdminOrDirector(a) || n.authorId == a.id)
      && (Given(p.newsType) && ParseNewsType(p.newsType.value) != Some(n.newsType) ==> IsAdminOrDirector(a))
      && (p.newsType == Some("general") ==> MayPostGeneral(a))
      && (p.newsType == Some("group") ==> MayPostGroup(a))
      && (Given(p.newsType) ==> ParseNewsType(p.newsType.value).Some?)
      && NewsValid(Patched(n, p, NewKind(n, p)))
    ensures r.Ok? ==> r.value == Patched(n, p, NewKind(n, p))
  {
    if !IsAdminOrDirector(a) && n.authorId != a.id then Fail(Forbidden)
    else if Given(p.newsType) && ParseNewsType(p.newsType.value) != Some(n.newsType) && !IsAdminOrDirector(a) then Fail(Forbidden)
    else if p.newsType == Some("general") && !MayPostGeneral(a) then Fail(Forbidden)
    else if p.newsType == Some("group") && !MayPostGroup(a) then Fail(Forbidden)
    else if Given(p.newsType) && ParseNewsType(p.newsType.value).None? then Fail(ServerError)
    else
      var m := Patched(n, p, NewKind(n, p));
      if !NewsValid(m) then Fail(ServerError) else Ok(m)
  }

  /** General news has no targets. */
  predicate Untargeted(n: News)
  {
    n.newsType == GeneralNews ==> n.targetGroups == []
  }

  /** Every created item is untargeted when general, and updates keep it so. */
  lemma {:induction false} GeneralStaysUntargeted(n: News, a: Actor, p: NewsPatch, f: NewsForm)
    requires Untargeted(n)
    ensures CheckCreate(a, f).Ok? ==> Untargeted(CheckCreate(a, f).value)
    ensures UpdateOutcome(n, a, p).Ok? ==> Untargeted(UpdateOutcome(n, a, p).value)
  {
    if UpdateOutcome(n, a, p).Ok? {
      var m := UpdateOutcome(n, a, p).value;
      if m.newsType == GeneralNews && p.targetGroups.None? && p.newsType != Some("general") {
        assert m.targetGroups == n.targetGroups;
      }
    }
  }

  /** Creation refuses group news without targets, but an update can
      produce it: an admin retyping a general item as "group" without
      naming groups keeps its empty target list. */
  lemma {:induction false} UpdateMayLeaveGroupUntargeted(n: News, a: Actor)
    requires n.newsType == GeneralNews && n.targetGroups == [] && NewsValid(n) && IsAdminOrDirector(a)
    ensures var r := UpdateOutcome(n, a, NewsPatch(None, None, None, None, None, None, Some("group")));
      r.Ok? && r.value.newsType == GroupNews && r.value.targetGroups == []
  {
    assert ParseNewsType("group") == Some(GroupNews);
  }

  /** An update that names nothing saves the item unchanged. */
  lemma EmptyPatchKeeps(n: News, a: Actor)
    requires NewsValid(n) && (IsAdminOrDirector(a) || n.authorId == a.id)
    ensures UpdateOutcome(n, a, NewsPatch(None, None, None, None, None, None, None)) == Ok(n)
  {
  }

  /** `updateNews`: 404 for a missing item, then `UpdateOutcome`. */
  method UpdateNews(db: Db, a: Actor, id: Id, p: NewsPatch) returns (r: Result<News>)
    modifies db`news
    ensures id !in old(db.news) ==> r == Fail(NotFound)
    ensures id in old(db.news) ==> r == UpdateOutcome(old(db.news)[id], a, p)
    ensures db.news == if r.Ok? then old(db.news)[id := r.value] else old(db.news)
  {
    if id !in db.news {
      return Fail(NotFound);
    }
    r := UpdateOutcome(db.news[id], a, p);
    if r.Ok? {
      db.news := db.news[id := r.value];
    }
  }

  /** `deleteNews`: the author or an admin or director marks it inactive. */
  method DeleteNews(db: Db, a: Actor, id: Id) returns (r: Result<()>)
    modifies db`news
    ensures id !in old(db.news) ==> r == Fail(NotFound)
    ensures id in old(db.news) ==> (r.Ok? <==> IsAdminOrDirector(a) || old(db.news)[id].authorId == a.id)
    ensures r.Fail? ==> db.news == old(db.news) && (r.code == NotFound || r.code == Forbidden)
    ensures r.Ok? ==> db.news == old(db.news)[id := old(db.news)[id].(isActive := false)]
  {
    if id !in db.news {
      return Fail(NotFound);
    }
    if !IsAdminOrDirector(a) && db.news[id].authorId != a.id {
      return Fail(Forbidden);
    }
    db.news := db.news[id := db.news[id].(isActive := false)];
    r := Ok(());
  }

  /** A deleted item is gone from every listing and from `getNewsById`,
      while every other item keeps its place in each listing. */
  lemma {:induction false} DeletedHidden(news: map<Id, News>, id: Id, category: Option<string>, groupId: Option<Id>,
                                         kind: Option<string>)
    requires id in news
    ensures var after := news[id := news[id].(isActive := false)];
      && id !in GetAllNews(after, category, groupId, kind)
      && GetNewsById(after, id) == Fail(NotFound)
      && (forall other :: other != id ==>
            (other in GetAllNews(after, category, groupId, kind) <==> other in GetAllNews(news, category, groupId, kind)))
  {
    var after := news[id := news[id].(isActive := false)];
    forall other | other != id
      ensures other in GetAllNews(after, category, groupId, kind) <==> other in GetAllNews(news, category, groupId, kind)
    {
      if other in news {
        assert after[other] == news[other];
      }
    }
  }

  function Toggled(n: News): (m: News)
    ensures m.isPinned != n.isPinned
  {
    n.(isPinned := !n.isPinned)
  }

  /** `togglePinNews`: admins and directors only, checked before the lookup. */
  method TogglePinNews(db: Db, a: Actor, id: Id) returns (r: Result<News>)
    modifies db`news
    ensures !IsAdminOrDirector(a) ==> r == Fail(Forbidden)
    ensures IsAdminOrDirector(a) && id !in old(db.news) ==> r == Fail(NotFound)
    ensures IsAdminOrDirector(a) && id in old(db.news) ==> r == Ok(Toggled(old(db.news)[id]))
    ensures db.news == if r.Ok? then old(db.news)[id := r.value] else old(db.news)
  {
    if !IsAdminOrDirector(a) {
      return Fail(Forbidden);
    }
    if id !in db.news {
      return Fail(NotFound);
    }
    r := Ok(Toggled(db.news[id]));
    db.news := db.news[id := r.value];
  }

  /** Toggling twice restores the collection, and a toggle touches nothing
      but the pin. */
  lemma {:induction false} ToggleTwiceRestores(news: map<Id, News>, id: Id)
    requires id in news
    ensures var once := news[id := Toggled(news[id])];
      && once[id].(isPinned := news[id].isPinned) == news[id]
      && once[id := Toggled(once[id])] == news
  {
    var once := news[id := Toggled(news[id])];
    assert Toggled(once[id]) == news[id];
  }
}
