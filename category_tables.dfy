/**
 * The category tables as the categories controller and
 * `CategoryLookup.upsert_for` change them: categories, lookups, hidden
 * categories, and the category column of every transaction.
 */
module CategoryTables {
  import opened Wrappers
  import opened Text
  import opened TransactionRules
  import opened Categories

  class Tables {
    var categories: map<CategoryId, Category>
    var lookups: map<LookupId, Lookup>
    var hidden: set<Hidden>
    var postings: map<TrxId, Posting>
    /** The next id the database hands out, for categories and lookups alike. */
    var nextId: nat

    /**
     * The database's guarantees: saved rows pass their validations, lookups
     * are unique per user and description, and every reference points at an
     * existing category (a hidden one at a global category).
     */
    predicate Valid()
      reads this
    {
      TablesOk(categories, lookups, hidden, postings, nextId)
    }

    constructor ()
      ensures Valid()
      ensures categories == map[] && lookups == map[] && hidden == {} && postings == map[]
    {
      categories, lookups, hidden, postings, nextId := map[], map[], {}, map[], 0;
    }

    /** Saves a new category `name` for `owner` under a fresh id, provided it passes the validations. */
    method Insert(name: string, kind: Kind, owner: Option<UserId>) returns (outcome: CreateOutcome)
      requires Valid() && (kind == Global <==> owner.None?)
      modifies this
      ensures Valid()
      ensures outcome.Invalid? <==> NameErrors(old(categories), owner, NormalizeName(name), None) != {}
      ensures outcome.Invalid? ==> outcome.errors == NameErrors(old(categories), owner, NormalizeName(name), None)
                                   && unchanged(this)
      ensures outcome.Created? ==> outcome.id == old(nextId) && outcome.id !in old(categories) && nextId == old(nextId) + 1
                                   && categories == old(categories)[outcome.id := Category(NormalizeName(name), kind, owner)]
      ensures unchanged(this`lookups, this`hidden, this`postings)
    {
      var n := NormalizeName(name);
      var errors := NameErrors(categories, owner, n, None);
      if errors != {} {
        return Invalid(errors);
      }
      var id := nextId;
      var c := Category(n, kind, owner);
      InsertKeeps(categories, lookups, hidden, postings, nextId, c);
      categories := categories[id := c];
      nextId := nextId + 1;
      outcome := Created(id);
    }

    /** `create`: a custom category owned by the current user, whatever else the parameters say. */
    method Create(user: UserId, name: string) returns (outcome: CreateOutcome)
      requires Valid()
      modifies this
      ensures Valid()
      ensures outcome.Invalid? <==> NameErrors(old(categories), Some(user), NormalizeName(name), None) != {}
      ensures outcome.Invalid? ==> unchanged(this)
      ensures outcome.Created? ==> outcome.id !in old(categories)
                                   && categories == old(categories)[outcome.id := Category(NormalizeName(name), Custom, Some(user))]
      ensures unchanged(this`lookups, this`hidden, this`postings)
    {
      outcome := Insert(name, Custom, Some(user));
    }

    /**
     * `handle_global_category_rename`: refused when the user already has a
     * category of that name; otherwise the user gets a custom copy under the
     * new name, their transactions and lookups move onto it, and the global
     * category is hidden for them. Nobody else's rows change.
     */
    method RenameGlobal(user: UserId, id: CategoryId, newName: string) returns (outcome: UpdateOutcome)
      requires Valid() && id in categories && categories[id].kind == Global
      modifies this
      ensures Valid()
      ensures outcome.AlreadyExists? || outcome.Copied? || outcome.CopyFailed?
      ensures outcome.AlreadyExists? <==>
                exists c :: c in old(categories) && old(categories)[c].owner == Some(user)
                            && Downcase(old(categories)[c].name) == Squish(Downcase(newName))
      ensures !outcome.Copied? ==> unchanged(this)
      ensures outcome.Copied? ==>
                && outcome.copy !in old(categories)
                && categories == old(categories)[outcome.copy := Category(NormalizeName(newName), Custom, Some(user))]
                && postings == ReassignFor(old(postings), user, id, Some(outcome.copy))
                && lookups == MoveLookups(old(lookups), user, id, outcome.copy)
                && hidden == old(hidden) + {Hidden(user, id)}
    {
      if exists c :: c in categories && categories[c].owner == Some(user) && Downcase(categories[c].name) == Squish(Downcase(newName)) {
        return AlreadyExists;
      }
      var created := Insert(newName, Custom, Some(user));
      if created.Invalid? {
        return CopyFailed(created.errors);
      }
      MoveToCopy(user, id, created.id);
      outcome := Copied(created.id);
    }

    /** The user's transactions and lookups in global `id` move onto their `copy`, and `id` is hidden for them. */
    method MoveToCopy(user: UserId, id: CategoryId, copy: CategoryId)
      requires Valid() && id in categories && categories[id].kind == Global && copy in categories
      modifies this
      ensures Valid()
      ensures categories == old(categories) && nextId == old(nextId)
      ensures postings == ReassignFor(old(postings), user, id, Some(copy))
      ensures lookups == MoveLookups(old(lookups), user, id, copy)
      ensures hidden == old(hidden) + {Hidden(user, id)}
    {
      MoveToCopyKeeps(categories, lookups, hidden, postings, nextId, user, id, copy);
      postings := ReassignFor(postings, user, id, Some(copy));
      lookups := MoveLookups(lookups, user, id, copy);
      hidden := hidden + {Hidden(user, id)};
    }

    /**
     * `handle_global_category_delete`: the user's transactions lose the
     * category, the user's lookups for it are destroyed and it is hidden for
     * them; the category itself and everybody else's rows stay.
     */
    method DeleteGlobal(user: UserId, id: CategoryId)
      requires Valid() && id in categories && categories[id].kind == Global
      modifies this
      ensures Valid()
      ensures categories == old(categories) && nextId == old(nextId)
      ensures postings == ReassignFor(old(postings), user, id, None)
      ensures lookups == DropLookups(old(lookups), Some(user), id)
      ensures hidden == old(hidden) + {Hidden(user, id)}
    {
      DeleteGlobalKeeps(categories, lookups, hidden, postings, nextId, user, id);
      postings := ReassignFor(postings, user, id, None);
      lookups := DropLookups(lookups, Some(user), id);
      hidden := hidden + {Hidden(user, id)};
    }

    /**
     * `handle_custom_category_delete`: every transaction in the category loses
     * it, every lookup for it is destroyed, and the category is removed.
     */
    method DeleteCustom(id: CategoryId)
      requires Valid() && id in categories && categories[id].kind == Custom
      modifies this
      ensures Valid()
      ensures categories == old(categories) - {id} && nextId == old(nextId)
      ensures postings == ClearAll(old(postings), id)
      ensures lookups == DropLookups(old(lookups), None, id)
      ensures hidden == old(hidden)
    {
      DeleteCustomTablesKeep(categories, lookups, hidden, postings, nextId, id);
      postings := ClearAll(postings, id);
      lookups := DropLookups(lookups, None, id);
      categories := categories - {id};
    }

    /**
     * `update`: a category outside the user's scope is not found; a global one
     * is renamed through a private copy; a custom one is renamed in place when
     * the new name passes the validations.
     */
    method Update(user: UserId, id: CategoryId, name: string) returns (outcome: UpdateOutcome)
      requires Valid()
      modifies this
      ensures Valid()
      ensures outcome.NotFound? <==> id !in ForUser(old(categories), user)
      ensures outcome.NotFound? || outcome.Rejected? ==> unchanged(this)
      ensures outcome.Updated? ==>
                categories == old(categories)[id := old(categories)[id].(name := NormalizeName(name))]
                && unchanged(this`lookups, this`hidden, this`postings, this`nextId)
      ensures id in ForUser(old(categories), user) && old(categories)[id].kind == Custom ==>
                (outcome.Updated? <==> NameErrors(old(categories), Some(user), NormalizeName(name), Some(id)) == {})
    {
      if id !in ForUser(categories, user) {
        return NotFound;
      }
      if categories[id].kind == Global {
        outcome := RenameGlobal(user, id, name);
        return;
      }
      var n := NormalizeName(name);
      var errors := NameErrors(categories, Some(user), n, Some(id));
      if errors != {} {
        return Rejected(errors);
      }
      RenameKeeps(categories, lookups, hidden, postings, nextId, id, n);
      categories := categories[id := categories[id].(name := n)];
      outcome := Updated;
    }

    /** `destroy`: hides a global category for the user, deletes a custom one. */
    method Destroy(user: UserId, id: CategoryId) returns (outcome: DestroyOutcome)
      requires Valid()
      modifies this
      ensures Valid()
      ensures outcome == Missing <==> id !in ForUser(old(categories), user)
      ensures outcome == Missing ==> unchanged(this)
      ensures outcome == HiddenForUser <==> id in ForUser(old(categories), user) && old(categories)[id].kind == Global
      ensures outcome == Gone ==> categories == old(categories) - {id} && old(categories)[id].owner == Some(user)
    {
      if id !in ForUser(categories, user) {
        return Missing;
      }
      if categories[id].kind == Global {
        DeleteGlobal(user, id);
        return HiddenForUser;
      }
      DeleteCustom(id);
      outcome := Gone;
    }

    /**
     * `upsert_for`: nothing without a non-blank description, a user and a
     * category; otherwise the normalised description is stored.
     */
    method Upsert(user: Option<UserId>, category: Option<CategoryId>, description: string, now: int)
      returns (r: Option<LookupId>)
      requires Valid() && (category.Some? ==> category.value in categories)
      modifies this
      ensures Valid()
      ensures r.None? <==> Blank(description) || user.None? || category.None?
      ensures r.None? ==> unchanged(this)
      ensures unchanged(this`categories, this`hidden, this`postings)
      ensures r.Some? ==>
                Upserted(lookups, nextId, r.value)
                == UpsertLookup(old(lookups), old(nextId), user.value, category.value, Normalize(description), now)
      ensures r.Some? ==> FindExact(lookups, user.value, Normalize(description), nextId) == r
    {
      var norm := Normalize(description);
      if norm == [] || user.None? || category.None? {
        return None;
      }
      var id := Store(user.value, category.value, norm, now);
      r := Some(id);
    }

    /**
     * The body of `upsert_for` once its guards pass: the user's lookup for
     * `norm` is found or started, filed under `category`, counted once more
     * and stamped with `now`.
     */
    method Store(user: UserId, category: CategoryId, norm: string, now: int) returns (id: LookupId)
      requires Valid() && category in categories
      requires norm != [] && Squished(norm) && LowerCase(norm)
      modifies this
      ensures Valid()
      ensures unchanged(this`categories, this`hidden, this`postings)
      ensures Upserted(lookups, nextId, id) == UpsertLookup(old(lookups), old(nextId), user, category, norm, now)
      ensures FindExact(lookups, user, norm, nextId) == Some(id)
    {
      var u := UpsertLookup(lookups, nextId, user, category, norm, now);
      ghost var ls, next := lookups, nextId;
      UpsertFinds(lookups, nextId, user, category, norm, now);
      lookups, nextId := u.lookups, u.next;
      UpsertKeeps(categories, ls, hidden, postings, next, user, category, norm, now, lookups, nextId);
      id := u.id;
    }
  }
}
