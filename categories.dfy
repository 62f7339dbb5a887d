/**
 * api/routers/categories.py: each handler loads the user document, edits
 * its `categories` map (name -> {monthly_budget}) and writes the whole map
 * back. The edits of the map are functions on its value; the handlers are
 * methods over the Database that load, check and write back.
 */
module Categories {
  import opened Results
  import opened Errors
  import opened Store

  type Categories = map<string, Category>

  /** A user document without `categories` is treated as having none. */
  function Existing(cats: Option<Categories>): Categories {
    cats.GetOr(map[])
  }

  /** create_category's edit: a new name gets {monthly_budget}; the budget's sign is not checked. */
  function WithCategory(cats: Option<Categories>, name: string, budget: real): (r: Result<Categories, Error>)
    ensures r.Err? <==> name in Existing(cats)
    ensures r.Err? ==> r.error == CategoryExists
    ensures r.Ok? ==> r.value.Keys == Existing(cats).Keys + {name}
    ensures r.Ok? ==> r.value[name] == Category(budget)
    ensures r.Ok? ==> forall n :: n in Existing(cats) ==> r.value[n] == Existing(cats)[n]
  {
    var m := Existing(cats);
    if name in m then Err(CategoryExists) else Ok(m[name := Category(budget)])
  }

  /** update_category's edit: only that entry's monthly_budget changes; a negative budget is refused, zero is not. */
  function WithBudget(cats: Option<Categories>, name: string, budget: real): (r: Result<Categories, Error>)
    ensures r == Err(CategoryNotFound) <==> cats.None? || name !in cats.value
    ensures r == Err(NegativeBudget) <==> cats.Some? && name in cats.value && budget < 0.0
    ensures r.Ok? ==> cats.Some? && r.value.Keys == cats.value.Keys
    ensures r.Ok? ==> r.value[name].monthlyBudget == budget
    ensures r.Ok? ==> forall n :: n in cats.value && n != name ==> r.value[n] == cats.value[n]
  {
    if cats.None? || name !in cats.value then Err(CategoryNotFound)
    else if budget < 0.0 then Err(NegativeBudget)
    else Ok(cats.value[name := cats.value[name].(monthlyBudget := budget)])
  }

  /** delete_category's edit: exactly the named key goes. */
  function WithoutCategory(cats: Option<Categories>, name: string): (r: Result<Categories, Error>)
    ensures r.Err? <==> cats.None? || name !in cats.value
    ensures r.Err? ==> r.error == CategoryNotFound
    ensures r.Ok? ==> r.value.Keys == cats.value.Keys - {name}
    ensures r.Ok? ==> forall n :: n in r.value ==> r.value[n] == cats.value[n]
  {
    if cats.None? || name !in cats.value then Err(CategoryNotFound)
    else Ok(cats.value - {name})
  }

  /** The user document with its categories replaced, as update_one($set categories) leaves it. */
  function Rewritten(users: map<UserId, User>, uid: UserId, cats: Categories): (r: map<UserId, User>)
    requires uid in users
    ensures r.Keys == users.Keys
    ensures r[uid] == users[uid].(categories := Some(cats))
    ensures forall other :: other in users && other != uid ==> r[other] == users[other]
  {
    users[uid := users[uid].(categories := Some(cats))]
  }

  method CreateCategory(db: Database, uid: UserId, name: string, budget: real) returns (r: Result<(), Error>)
    modifies db
    ensures db.accounts == old(db.accounts) && db.expenses == old(db.expenses) && db.nextId == old(db.nextId)
    ensures uid !in old(db.users) ==> r == Err(UserNotFound) && db.users == old(db.users)
    ensures uid in old(db.users) ==>
      match WithCategory(old(db.users)[uid].categories, name, budget)
      case Err(e) => r == Err(e) && db.users == old(db.users)
      case Ok(cats) => r == Ok(()) && db.users == Rewritten(old(db.users), uid, cats)
  {
    if uid !in db.users {
      return Err(UserNotFound);
    }
    var user := db.users[uid];
    var cats := Existing(user.categories);
    if name in cats {
      return Err(CategoryExists);
    }
    cats := cats[name := Category(budget)];
    db.users := db.users[uid := user.(categories := Some(cats))];
    return Ok(());
  }

  method UpdateCategory(db: Database, uid: UserId, name: string, budget: real) returns (r: Result<(), Error>)
    modifies db
    ensures db.accounts == old(db.accounts) && db.expenses == old(db.expenses) && db.nextId == old(db.nextId)
    ensures uid !in old(db.users) ==> r == Err(CategoryNotFound) && db.users == old(db.users)
    ensures uid in old(db.users) ==>
      match WithBudget(old(db.users)[uid].categories, name, budget)
      case Err(e) => r == Err(e) && db.users == old(db.users)
      case Ok(cats) => r == Ok(()) && db.users == Rewritten(old(db.users), uid, cats)
  {
    if uid !in db.users || db.users[uid].categories.None? || name !in db.users[uid].categories.value {
      return Err(CategoryNotFound);
    }
    if budget < 0.0 {
      return Err(NegativeBudget);
    }
    var user := db.users[uid];
    var cats := user.categories.value;
    cats := cats[name := cats[name].(monthlyBudget := budget)];
    db.users := db.users[uid := user.(categories := Some(cats))];
    return Ok(());
  }

  method DeleteCategory(db: Database, uid: UserId, name: string) returns (r: Result<(), Error>)
    modifies db
    ensures db.accounts == old(db.accounts) && db.expenses == old(db.expenses) && db.nextId == old(db.nextId)
    ensures uid !in old(db.users) ==> r == Err(CategoryNotFound) && db.users == old(db.users)
    ensures uid in old(db.users) ==>
      match WithoutCategory(old(db.users)[uid].categories, name)
      case Err(e) => r == Err(e) && db.users == old(db.users)
      case Ok(cats) => r == Ok(()) && db.users == Rewritten(old(db.users), uid, cats)
  {
    if uid !in db.users || db.users[uid].categories.None? || name !in db.users[uid].categories.value {
      return Err(CategoryNotFound);
    }
    var user := db.users[uid];
    var cats := user.categories.value - {name};
    db.users := db.users[uid := user.(categories := Some(cats))];
    return Ok(());
  }

  /** get_all_categories: the user's whole map, or nothing when the user or the map is absent. */
  function GetAllCategories(db: Database, uid: UserId): (r: Categories)
    reads db
    ensures uid in db.users && db.users[uid].categories.Some? ==> r == db.users[uid].categories.value
    ensures uid !in db.users || db.users[uid].categories.None? ==> r == map[]
  {
    if uid in db.users then Existing(db.users[uid].categories) else map[]
  }

  /** The entry get_category returns, from a user document. */
  function Lookup(cats: Option<Categories>, name: string): (r: Result<Category, Error>)
    ensures r.Ok? <==> cats.Some? && name in cats.value
    ensures r.Ok? ==> r.value == cats.value[name]
    ensures r.Err? ==> r.error == CategoryNotFound
  {
    if cats.Some? && name in cats.value then Ok(cats.value[name]) else Err(CategoryNotFound)
  }

  function GetCategory(db: Database, uid: UserId, name: string): (r: Result<Category, Error>)
    reads db
    ensures uid !in db.users ==> r == Err(CategoryNotFound)
    ensures uid in db.users ==> r == Lookup(db.users[uid].categories, name)
  {
    if uid !in db.users then Err(CategoryNotFound) else Lookup(db.users[uid].categories, name)
  }

  // ---------------------------------------------------------------- properties

  /** A created category reads back with its budget. */
  lemma CreateThenLookup(cats: Option<Categories>, name: string, budget: real)
    requires name !in Existing(cats)
    ensures WithCategory(cats, name, budget).Ok?
    ensures Lookup(Some(WithCategory(cats, name, budget).value), name) == Ok(Category(budget))
  {
  }

  /** Deleting a category just created gives back the map as it was. */
  lemma CreateThenDeleteRestores(cats: Categories, name: string, budget: real)
    requires name !in cats
    ensures WithoutCategory(Some(WithCategory(Some(cats), name, budget).value), name) == Ok(cats)
  {
    assert cats[name := Category(budget)] - {name} == cats;
  }

  /** An updated budget reads back; updating twice with one budget is the same as once. */
  lemma UpdateThenLookup(cats: Categories, name: string, budget: real)
    requires name in cats && budget >= 0.0
    ensures Lookup(Some(WithBudget(Some(cats), name, budget).value), name) == Ok(Category(budget))
    ensures WithBudget(Some(WithBudget(Some(cats), name, budget).value), name, budget) == WithBudget(Some(cats), name, budget)
  {
    var once := cats[name := cats[name].(monthlyBudget := budget)];
    assert once[name := once[name].(monthlyBudget := budget)] == once;
  }

  /** A deleted category is gone: looking it up, updating it or deleting it again all give "Category not found". */
  lemma DeleteThenGone(cats: Categories, name: string, budget: real)
    requires name in cats
    ensures var rest := Some(WithoutCategory(Some(cats), name).value);
      && Lookup(rest, name) == Err(CategoryNotFound)
      && WithBudget(rest, name, budget) == Err(CategoryNotFound)
      && WithoutCategory(rest, name) == Err(CategoryNotFound)
  {
  }
}
