/** The custom-categories endpoint: listing the session user's categories in creation order, and
    creating one after checking the required fields. */
module CategoriesApi {
  import opened Wrappers
  import opened Strings
  import Sorting

  datatype Category = Category(
    id: string, name: string, nameEn: string, icon: string, catType: string, userId: string,
    createdAt: int)

  /** A JSON field is truthy when present and not the empty string. */
  predicate Truthy(x: Option<string>) {
    x.Some? && x.value != ""
  }

  /** The fields of a POST body; a body that is not JSON is absent. */
  datatype Body = Body(name: Option<string>, nameEn: Option<string>, icon: Option<string>,
                       catType: Option<string>)

  datatype Response =
    | Listed(categories: seq<Category>)
    | Created(category: Category)
    | Unauthorized
    | BadRequest
    | ServerError
  {
    function Status(): int {
      match this
      case Listed(_) => 200
      case Created(_) => 201
      case Unauthorized => 401
      case BadRequest => 400
      case ServerError => 500
    }
  }

  /** `orderBy: { createdAt: 'asc' }`. */
  predicate CreatedFirst(a: Category, b: Category) {
    a.createdAt <= b.createdAt
  }

  /** The categories owned by `user`, in storage order. */
  function Owned(store: seq<Category>, user: string): (r: seq<Category>)
    ensures forall c :: c in r <==> c in store && c.userId == user
    ensures multiset(r) <= multiset(store)
  {
    if |store| == 0 then []
    else
      assert store == [store[0]] + store[1..];
      assert forall c :: c in store <==> c == store[0] || c in store[1..];
      (if store[0].userId == user then [store[0]] else []) + Owned(store[1..], user)
  }

  /** GET: 401 without a session, 500 when the query fails, otherwise exactly the user's
      categories, oldest first. */
  function List(store: seq<Category>, session: Option<string>, fault: bool): (r: Response)
    ensures session.None? <==> r == Unauthorized
    ensures r.Status() == 500 <==> session.Some? && fault
    ensures r.Listed? ==>
              && multiset(r.categories) == multiset(Owned(store, session.value))
              && Sorting.Sorted(r.categories, CreatedFirst)
              && (forall i :: 0 <= i < |r.categories| ==> r.categories[i].userId == session.value)
  {
    if session.None? then Unauthorized
    else if fault then ServerError
    else
      var owned := Owned(store, session.value);
      CreatedFirstOrder();
      Sorting.SortSorted(owned, CreatedFirst);
      var sorted := Sorting.Sort(owned, CreatedFirst);
      assert forall i :: 0 <= i < |sorted| ==> sorted[i] in multiset(owned);
      Listed(sorted)
  }

  lemma CreatedFirstOrder()
    ensures Sorting.Total(CreatedFirst) && Sorting.Transitive(CreatedFirst)
  {
  }

  /** A listing never shows another user's category, and shows every one of the user's. */
  lemma ListIsOwnership(store: seq<Category>, user: string, c: Category)
    ensures var r := List(store, Some(user), false);
            c in r.categories <==> c in store && c.userId == user
  {
    var r := List(store, Some(user), false);
    assert c in r.categories <==> c in multiset(r.categories);
  }

  /** POST. `body` is None when the request is not JSON; `newId` and `now` are the id and the
      creation time the database assigns; `fault` stands for a failed insert. */
  function Create(store: seq<Category>, session: Option<string>, body: Option<Body>, newId: string,
                  now: int, fault: bool): (r: (Response, seq<Category>))
    ensures session.None? ==> r == (Unauthorized, store)
    ensures !r.0.Created? ==> r.1 == store
    ensures r.0 == ServerError <==>
              session.Some? && (body.None? ||
                (Truthy(body.value.name) && Truthy(body.value.icon) && Truthy(body.value.catType) && fault))
    ensures r.0.Created? <==>
              session.Some? && body.Some?
              && Truthy(body.value.name) && Truthy(body.value.icon) && Truthy(body.value.catType) && !fault
    ensures r.0 == BadRequest <==>
              session.Some? && body.Some?
              && !(Truthy(body.value.name) && Truthy(body.value.icon) && Truthy(body.value.catType))
    ensures r.0.Created? ==>
              && session.Some? && body.Some? && Truthy(body.value.name)
              && r.1 == store + [r.0.category]
              && r.0.category.userId == session.value
              && r.0.category.name == body.value.name.value
              && r.0.category.nameEn == OrElse(body.value.nameEn, body.value.name.value)
              && r.0.category.icon == body.value.icon.value
              && r.0.category.catType == body.value.catType.value
              && r.0.category.id == newId
              && r.0.category.createdAt == now
  {
    if session.None? then (Unauthorized, store)
    else if body.None? then (ServerError, store)
    else
      var b := body.value;
      if !(Truthy(b.name) && Truthy(b.icon) && Truthy(b.catType)) then (BadRequest, store)
      else if fault then (ServerError, store)
      else
        var c := Category(newId, b.name.value, OrElse(b.nameEn, b.name.value), b.icon.value,
                          b.catType.value, session.value, now);
        (Created(c), store + [c])
  }

  /** A created category appears in its owner's next listing, and in no one else's. */
  lemma CreatedIsListed(store: seq<Category>, user: string, body: Body, newId: string, now: int,
                        other: string)
    requires Truthy(body.name) && Truthy(body.icon) && Truthy(body.catType)
    requires other != user
    ensures var (r, after) := Create(store, Some(user), Some(body), newId, now, false);
            && r.category in List(after, Some(user), false).categories
            && r.category !in List(after, Some(other), false).categories
  {
    var (r, after) := Create(store, Some(user), Some(body), newId, now, false);
    ListIsOwnership(after, user, r.category);
    ListIsOwnership(after, other, r.category);
  }
}
