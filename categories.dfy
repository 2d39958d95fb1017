/**
 * Categories and matching rules. A category is global (no owner, shared by
 * everybody) or custom (owned by one user); names are squished and unique per
 * owner without regard to case. A lookup remembers, per user, which category a
 * normalised description was last filed under and how often. The categories
 * controller renames and deletes categories: a global one is never changed for
 * everybody, but replaced by a private copy or hidden for the current user
 * only, and no other user's rows are touched.
 */
module Categories {
  import opened Wrappers
  import opened Text
  import opened TransactionRules
  import Ledger

  type CategoryId = Ledger.CategoryId
  type LookupId = nat

  datatype Kind = Global | Custom

  datatype Category = Category(name: string, kind: Kind, owner: Option<UserId>)

  /** A matching rule: `description_norm` was filed under `category`, `usageCount` times, last at `lastUsedAt`. */
  datatype Lookup = Lookup(user: UserId, category: CategoryId, descriptionNorm: string, usageCount: int, lastUsedAt: int)

  /** A `hidden_categories` row: `user` no longer sees global `category`. */
  datatype Hidden = Hidden(user: UserId, category: CategoryId)

  /** A transaction as the categories controller sees it: the owner of its account, and its category. */
  datatype Posting = Posting(owner: UserId, category: Option<CategoryId>)

  // ---------------------------------------------------------------------------
  // Names

  /** `normalize_name`: `name.to_s.squish`. */
  function NormalizeName(name: string): (r: string)
    ensures Squished(r)
    ensures r == [] <==> Blank(name)
  {
    SquishIsSquished(name);
    Squish(name)
  }

  /** Normalising a name twice is normalising it once. */
  lemma NormalizeNameIdempotent(name: string)
    ensures NormalizeName(NormalizeName(name)) == NormalizeName(name)
  {
    SquishIdempotent(name);
  }

  const MaxNameLength := 80

  datatype NameError = NameMissing | NameTooLong | NameTaken

  /** Another category of the same owner (global categories share the owner nil) has this name, ignoring case. */
  predicate Taken(cs: map<CategoryId, Category>, owner: Option<UserId>, name: string, self: Option<CategoryId>) {
    exists id :: id in cs && Some(id) != self && cs[id].owner == owner && Downcase(cs[id].name) == Downcase(name)
  }

  /** The name validations: present, at most 80 characters, unique per owner without regard to case. */
  function NameErrors(cs: map<CategoryId, Category>, owner: Option<UserId>, name: string, self: Option<CategoryId>): (errors: set<NameError>)
    ensures NameMissing in errors <==> Blank(name)
    ensures NameTooLong in errors <==> |name| > MaxNameLength
    ensures NameTaken in errors <==> Taken(cs, owner, name, self)
  {
    (if Blank(name) then {NameMissing} else {})
    + (if |name| > MaxNameLength then {NameTooLong} else {})
    + (if Taken(cs, owner, name, self) then {NameTaken} else {})
  }

  predicate NamesUnique(cs: map<CategoryId, Category>) {
    forall i, j :: i in cs && j in cs && i != j && cs[i].owner == cs[j].owner ==> Downcase(cs[i].name) != Downcase(cs[j].name)
  }

  /** `for_user`: the global categories and the user's own, hidden ones included. */
  function ForUser(cs: map<CategoryId, Category>, user: UserId): (ids: set<CategoryId>)
    ensures forall id :: id in ids ==> id in cs
  {
    set id | id in cs && (cs[id].owner.None? || cs[id].owner == Some(user))
  }

  /** `for_user` shows every global category and every category of the user, and none of another user's. */
  lemma ForUserScope(cs: map<CategoryId, Category>, user: UserId, id: CategoryId)
    requires id in cs
    ensures cs[id].owner.None? ==> id in ForUser(cs, user)
    ensures cs[id].owner == Some(user) ==> id in ForUser(cs, user)
    ensures cs[id].owner.Some? && cs[id].owner != Some(user) ==> id !in ForUser(cs, user)
  {
  }

  // ---------------------------------------------------------------------------
  // Descriptions

  /** `CategoryLookup.normalize`: `text.to_s.downcase.squish`. */
  function Normalize(text: string): (r: string)
    ensures Squished(r) && LowerCase(r)
    ensures r == [] <==> Blank(text)
  {
    SquishIsSquished(Downcase(text));
    SquishKeepsLower(Downcase(text));
    assert Blank(Downcase(text)) <==> Blank(text);
    Squish(Downcase(text))
  }

  lemma DowncaseLower(s: string)
    requires LowerCase(s)
    ensures Downcase(s) == s
  {
  }

  /** Normalising twice is normalising once. */
  lemma NormalizeIdempotent(text: string)
    ensures Normalize(Normalize(text)) == Normalize(text)
  {
    DowncaseLower(Normalize(text));
    SquishIdempotent(Downcase(text));
  }

  /**
   * `normalize_description`: a blank `description_norm` falls back to its
   * previous value (or the empty string) before being normalised.
   */
  function NormalizeDescription(current: string, was: Option<string>): (r: string)
    ensures !Blank(current) ==> r == Normalize(current)
    ensures Blank(current) ==> r == Normalize(was.GetOr(""))
  {
    Normalize(if !Blank(current) then current else was.GetOr(""))
  }

  /** A description that is already normalised and not blank survives `normalize_description` unchanged. */
  lemma NormalizedDescriptionStays(text: string, was: Option<string>)
    requires !Blank(text)
    ensures NormalizeDescription(Normalize(text), was) == Normalize(text)
  {
    NormalizeIdempotent(text);
  }

  // ---------------------------------------------------------------------------
  // Usage counts

  /** The column default of `category_lookups.usage_count`. */
  const UsageCountDefault := 1

  /** `lookup.usage_count.to_i + 1` as written: a freshly initialised row starts from the column default. */
  function NextUsageCountAsWritten(existing: Option<int>): int {
    (if existing.Some? then existing.value else UsageCountDefault) + 1
  }

  /** The count after `k` upserts of one description, as written. */
  function UpsertsAsWritten(k: nat): Option<int> {
    if k == 0 then None else Some(NextUsageCountAsWritten(UpsertsAsWritten(k - 1)))
  }

  /** As written, the count runs one ahead of the number of upserts: the first upsert already stores 2. */
  lemma {:induction false} UpsertsCountedAsWritten(k: nat)
    requires k > 0
    ensures UpsertsAsWritten(k) == Some(k + 1)
  {
    if k > 1 {
      UpsertsCountedAsWritten(k - 1);
    }
  }

  /** The usage count an upsert stores: one more than before, and 1 for a new lookup. */
  function NextUsageCount(existing: Option<int>): int {
    (if existing.Some? then existing.value else 0) + 1
  }

  function Upserts(k: nat): Option<int> {
    if k == 0 then None else Some(NextUsageCount(Upserts(k - 1)))
  }

  /** The stored count is the number of upserts. */
  lemma {:induction false} UpsertsCounted(k: nat)
    requires k > 0
    ensures Upserts(k) == Some(k)
  {
    if k > 1 {
      UpsertsCounted(k - 1);
    }
  }

  // ---------------------------------------------------------------------------
  // Finding lookups

  predicate Exact(l: Lookup, user: UserId, norm: string) {
    l.user == user && l.descriptionNorm == norm
  }

  /** `find_by(user_id:, description_norm:)` among the ids below `bound`. */
  function FindExact(lookups: map<LookupId, Lookup>, user: UserId, norm: string, bound: nat): (r: Option<LookupId>)
    ensures r.Some? ==> r.value < bound && r.value in lookups && Exact(lookups[r.value], user, norm)
    ensures r.None? <==> forall id :: id < bound && id in lookups ==> !Exact(lookups[id], user, norm)
    decreases bound
  {
    if bound == 0 then None
    else
      var r := FindExact(lookups, user, norm, bound - 1);
      if r.Some? then r
      else if bound - 1 in lookups && Exact(lookups[bound - 1], user, norm) then Some(bound - 1)
      else None
  }

  /** With one lookup per user and description, the lookup found is the one that matches. */
  lemma FindExactUnique(lookups: map<LookupId, Lookup>, user: UserId, norm: string, bound: nat, id: LookupId)
    requires LookupsUnique(lookups)
    requires id < bound && id in lookups && Exact(lookups[id], user, norm)
    ensures FindExact(lookups, user, norm, bound) == Some(id)
  {
  }

  predicate LookupsUnique(lookups: map<LookupId, Lookup>) {
    forall i, j :: i in lookups && j in lookups && i != j ==>
      !(lookups[i].user == lookups[j].user && lookups[i].descriptionNorm == lookups[j].descriptionNorm)
  }

  /** Trigram similarity of two strings, between 0 and 1; computed by the database. */
  type Similarity = (string, string) -> real

  const SimilarityThreshold: real := 0.3

  predicate Candidate(l: Lookup, user: UserId, norm: string, similarity: Similarity) {
    l.user == user && similarity(l.descriptionNorm, norm) >= SimilarityThreshold
  }

  /** `a` comes first in `ORDER BY similarity DESC, usage_count DESC, last_used_at DESC`. */
  predicate Outranks(a: Lookup, b: Lookup, norm: string, similarity: Similarity) {
    || similarity(a.descriptionNorm, norm) > similarity(b.descriptionNorm, norm)
    || (similarity(a.descriptionNorm, norm) == similarity(b.descriptionNorm, norm)
        && (a.usageCount > b.usageCount || (a.usageCount == b.usageCount && a.lastUsedAt > b.lastUsedAt)))
  }

  /** The best-ranked candidate among the ids below `bound` (the lowest id among equals). */
  function BestFuzzy(lookups: map<LookupId, Lookup>, user: UserId, norm: string, similarity: Similarity, bound: nat): (r: Option<LookupId>)
    ensures r.Some? ==> r.value < bound && r.value in lookups && Candidate(lookups[r.value], user, norm, similarity)
    ensures r.Some? ==> forall id :: id < bound && id in lookups && Candidate(lookups[id], user, norm, similarity) ==>
                          !Outranks(lookups[id], lookups[r.value], norm, similarity)
    ensures r.None? <==> forall id :: id < bound && id in lookups ==> !Candidate(lookups[id], user, norm, similarity)
    decreases bound
  {
    if bound == 0 then None
    else
      var best := BestFuzzy(lookups, user, norm, similarity, bound - 1);
      var id := bound - 1;
      if id !in lookups || !Candidate(lookups[id], user, norm, similarity) then best
      else if best.None? || Outranks(lookups[id], lookups[best.value], norm, similarity) then Some(id)
      else best
  }

  /**
   * `suggest_for`: nothing for a blank description; otherwise the user's
   * lookup for exactly this normalised description, and only when there is
   * none the best-ranked similar one.
   */
  function SuggestFor(lookups: map<LookupId, Lookup>, bound: nat, user: UserId, description: string, similarity: Similarity): (r: Option<LookupId>)
    ensures Blank(description) ==> r.None?
    ensures r.Some? ==> r.value in lookups && lookups[r.value].user == user
    ensures FindExact(lookups, user, Normalize(description), bound).Some? && !Blank(description) ==>
              r == FindExact(lookups, user, Normalize(description), bound)
    ensures r.Some? && !Exact(lookups[r.value], user, Normalize(description)) ==>
              FindExact(lookups, user, Normalize(description), bound).None?
              && r == BestFuzzy(lookups, user, Normalize(description), similarity, bound)
  {
    var norm := Normalize(description);
    if norm == [] then None
    else
      var exact := FindExact(lookups, user, norm, bound);
      if exact.Some? then exact else BestFuzzy(lookups, user, norm, similarity, bound)
  }

  /** An exact match always wins over any fuzzy candidate, however similar. */
  lemma ExactBeforeFuzzy(lookups: map<LookupId, Lookup>, bound: nat, user: UserId, description: string,
                         similarity: Similarity, id: LookupId)
    requires LookupsUnique(lookups) && !Blank(description)
    requires id < bound && id in lookups && Exact(lookups[id], user, Normalize(description))
    ensures SuggestFor(lookups, bound, user, description, similarity) == Some(id)
  {
    FindExactUnique(lookups, user, Normalize(description), bound, id);
  }

  // ---------------------------------------------------------------------------
  // Update helpers: the `update_all` and `destroy_all` statements

  /** `Transaction.where(id: the user's transactions in from).update_all(category_id: to)`. */
  function ReassignFor(ps: map<TrxId, Posting>, user: UserId, from: CategoryId, to: Option<CategoryId>): (r: map<TrxId, Posting>)
    ensures r.Keys == ps.Keys
    ensures forall t :: t in r ==> r[t].owner == ps[t].owner
    ensures forall t :: t in r && (ps[t].owner != user || ps[t].category != Some(from)) ==> r[t] == ps[t]
    ensures forall t :: t in r && ps[t].owner == user && ps[t].category == Some(from) ==> r[t].category == to
  {
    map t | t in ps :: if ps[t].owner == user && ps[t].category == Some(from) then Posting(ps[t].owner, to) else ps[t]
  }

  /** `@category.transactions.update_all(category_id: nil)`: every user's transactions. */
  function ClearAll(ps: map<TrxId, Posting>, from: CategoryId): (r: map<TrxId, Posting>)
    ensures r.Keys == ps.Keys
    ensures forall t :: t in r ==> r[t].owner == ps[t].owner
    ensures forall t :: t in r && ps[t].category != Some(from) ==> r[t] == ps[t]
    ensures forall t :: t in r && ps[t].category == Some(from) ==> r[t].category.None?
  {
    map t | t in ps :: if ps[t].category == Some(from) then Posting(ps[t].owner, None) else ps[t]
  }

  /** `current_user.category_lookups.where(category_id: from).update_all(category_id: to)`. */
  function MoveLookups(ls: map<LookupId, Lookup>, user: UserId, from: CategoryId, to: CategoryId): (r: map<LookupId, Lookup>)
    ensures r.Keys == ls.Keys
    ensures forall l :: l in r && (ls[l].user != user || ls[l].category != from) ==> r[l] == ls[l]
    ensures forall l :: l in r && ls[l].user == user && ls[l].category == from ==>
              r[l].category == to && r[l].user == user && r[l].descriptionNorm == ls[l].descriptionNorm
              && r[l].usageCount == ls[l].usageCount && r[l].lastUsedAt == ls[l].lastUsedAt
  {
    map l | l in ls :: if ls[l].user == user && ls[l].category == from
                       then Lookup(user, to, ls[l].descriptionNorm, ls[l].usageCount, ls[l].lastUsedAt) else ls[l]
  }

  /** `destroy_all` of the lookups in `category`, for one user or (`user == None`) for everybody. */
  function DropLookups(ls: map<LookupId, Lookup>, user: Option<UserId>, category: CategoryId): (r: map<LookupId, Lookup>)
    ensures forall l :: l in r <==> l in ls && !(ls[l].category == category && (user.None? || Some(ls[l].user) == user))
    ensures forall l :: l in r ==> r[l] == ls[l]
  {
    map l | l in ls && !(ls[l].category == category && (user.None? || Some(ls[l].user) == user)) :: ls[l]
  }

  // ---------------------------------------------------------------------------
  // The tables

  datatype CreateOutcome = Created(id: CategoryId) | Invalid(errors: set<NameError>)

  datatype UpdateOutcome =
    | NotFound
    | Updated
    | Rejected(errors: set<NameError>)
    | AlreadyExists                    // a global rename to a name the user already has
    | Copied(copy: CategoryId)         // a global rename: the user's own copy
    | CopyFailed(errors: set<NameError>)   // `create!` raised

  datatype DestroyOutcome = Gone | HiddenForUser | Missing

  /** What a saved category satisfies: a squished, present name of at most 80 characters; an owner exactly when custom. */
  predicate NameOk(c: Category) {
    Squished(c.name) && !Blank(c.name) && |c.name| <= MaxNameLength && (c.kind == Global <==> c.owner.None?)
  }

  predicate CategoriesOk(cs: map<CategoryId, Category>) {
    (forall id :: id in cs ==> NameOk(cs[id])) && NamesUnique(cs)
  }

  /** What a saved lookup satisfies: a present, normalised description and a count that is not negative. */
  predicate LookupOk(l: Lookup) {
    l.usageCount >= 0 && l.descriptionNorm != [] && Squished(l.descriptionNorm) && LowerCase(l.descriptionNorm)
  }

  predicate LookupsOk(ls: map<LookupId, Lookup>, cs: map<CategoryId, Category>) {
    (forall id :: id in ls ==> LookupOk(ls[id]) && ls[id].category in cs) && LookupsUnique(ls)
  }

  predicate HiddenOk(hs: set<Hidden>, cs: map<CategoryId, Category>) {
    forall h :: h in hs ==> h.category in cs && cs[h.category].kind == Global
  }

  predicate PostingsOk(ps: map<TrxId, Posting>, cs: map<CategoryId, Category>) {
    forall t :: t in ps && ps[t].category.Some? ==> ps[t].category.value in cs
  }

  predicate Below(keys: set<nat>, bound: nat) {
    forall k :: k in keys ==> k < bound
  }

  lemma CategoriesInsert(cs: map<CategoryId, Category>, id: CategoryId, c: Category)
    requires CategoriesOk(cs) && id !in cs && NameOk(c) && !Taken(cs, c.owner, c.name, None)
    ensures CategoriesOk(cs[id := c])
  {
  }

  lemma CategoriesRename(cs: map<CategoryId, Category>, id: CategoryId, name: string)
    requires CategoriesOk(cs) && id in cs && NameOk(cs[id].(name := name)) && !Taken(cs, cs[id].owner, name, Some(id))
    ensures CategoriesOk(cs[id := cs[id].(name := name)])
  {
  }

  /** A new or renamed category leaves every reference to the existing ones intact. */
  lemma ReferencesGrow(ls: map<LookupId, Lookup>, hs: set<Hidden>, ps: map<TrxId, Posting>,
                       cs: map<CategoryId, Category>, id: CategoryId, c: Category)
    requires LookupsOk(ls, cs) && HiddenOk(hs, cs) && PostingsOk(ps, cs)
    requires id in cs ==> cs[id].kind == c.kind
    ensures LookupsOk(ls, cs[id := c]) && HiddenOk(hs, cs[id := c]) && PostingsOk(ps, cs[id := c])
  {
  }

  lemma PostingsReassign(ps: map<TrxId, Posting>, cs: map<CategoryId, Category>, user: UserId, from: CategoryId, to: Option<CategoryId>)
    requires PostingsOk(ps, cs) && (to.Some? ==> to.value in cs)
    ensures PostingsOk(ReassignFor(ps, user, from, to), cs)
  {
  }

  lemma LookupsMove(ls: map<LookupId, Lookup>, cs: map<CategoryId, Category>, user: UserId, from: CategoryId, to: CategoryId)
    requires LookupsOk(ls, cs) && to in cs
    ensures LookupsOk(MoveLookups(ls, user, from, to), cs)
  {
    var r := MoveLookups(ls, user, from, to);
    forall id | id in r ensures LookupOk(r[id]) && r[id].category in cs {
      assert LookupOk(ls[id]);
    }
  }

  lemma LookupsDrop(ls: map<LookupId, Lookup>, cs: map<CategoryId, Category>, user: Option<UserId>, category: CategoryId)
    requires LookupsOk(ls, cs)
    ensures LookupsOk(DropLookups(ls, user, category), cs)
    ensures user.None? ==> LookupsOk(DropLookups(ls, user, category), cs - {category})
  {
  }

  /** Deleting a custom category leaves every remaining reference valid once its transactions and lookups let go of it. */
  lemma DeleteCustomKeeps(cs: map<CategoryId, Category>, hs: set<Hidden>, ps: map<TrxId, Posting>, id: CategoryId)
    requires CategoriesOk(cs) && HiddenOk(hs, cs) && PostingsOk(ps, cs) && id in cs && cs[id].kind == Custom
    ensures CategoriesOk(cs - {id}) && HiddenOk(hs, cs - {id}) && PostingsOk(ClearAll(ps, id), cs - {id})
  {
  }

  /** Storing a lookup under the id `FindExact` gave, or under a fresh id when it found none, keeps lookups unique. */
  lemma UniquePut(ls: map<LookupId, Lookup>, bound: nat, id: LookupId, l: Lookup)
    requires LookupsUnique(ls) && Below(ls.Keys, bound)
    requires FindExact(ls, l.user, l.descriptionNorm, bound) == Some(id)
             || (FindExact(ls, l.user, l.descriptionNorm, bound).None? && id !in ls)
    ensures LookupsUnique(ls[id := l])
  {
    var r := ls[id := l];
    forall i, j | i in r && j in r && i != j
      ensures !(r[i].user == r[j].user && r[i].descriptionNorm == r[j].descriptionNorm)
    {
      if i == id {
        assert j in ls && j < bound;
      } else if j == id {
        assert i in ls && i < bound;
      }
    }
  }

  lemma LookupsPut(ls: map<LookupId, Lookup>, cs: map<CategoryId, Category>, bound: nat, id: LookupId, l: Lookup)
    requires LookupsOk(ls, cs) && Below(ls.Keys, bound) && LookupOk(l) && l.category in cs
    requires FindExact(ls, l.user, l.descriptionNorm, bound) == Some(id)
             || (FindExact(ls, l.user, l.descriptionNorm, bound).None? && id !in ls)
    ensures LookupsOk(ls[id := l], cs)
  {
    UniquePut(ls, bound, id, l);
  }

  /** The database's guarantees over the five tables; see `CategoryTables.Valid`. */
  predicate TablesOk(cs: map<CategoryId, Category>, ls: map<LookupId, Lookup>, hs: set<Hidden>,
                     ps: map<TrxId, Posting>, next: nat) {
    && Below(cs.Keys, next)
    && Below(ls.Keys, next)
    && CategoriesOk(cs)
    && LookupsOk(ls, cs)
    && HiddenOk(hs, cs)
    && PostingsOk(ps, cs)
  }

  lemma InsertKeeps(cs: map<CategoryId, Category>, ls: map<LookupId, Lookup>, hs: set<Hidden>,
                    ps: map<TrxId, Posting>, next: nat, c: Category)
    requires TablesOk(cs, ls, hs, ps, next) && NameOk(c) && !Taken(cs, c.owner, c.name, None)
    ensures next !in cs
    ensures TablesOk(cs[next := c], ls, hs, ps, next + 1)
  {
    CategoriesInsert(cs, next, c);
    ReferencesGrow(ls, hs, ps, cs, next, c);
  }

  lemma RenameKeeps(cs: map<CategoryId, Category>, ls: map<LookupId, Lookup>, hs: set<Hidden>,
                    ps: map<TrxId, Posting>, next: nat, id: CategoryId, name: string)
    requires TablesOk(cs, ls, hs, ps, next) && id in cs
    requires NameOk(cs[id].(name := name)) && !Taken(cs, cs[id].owner, name, Some(id))
    ensures TablesOk(cs[id := cs[id].(name := name)], ls, hs, ps, next)
  {
    CategoriesRename(cs, id, name);
    ReferencesGrow(ls, hs, ps, cs, id, cs[id].(name := name));
  }

  lemma MoveToCopyKeeps(cs: map<CategoryId, Category>, ls: map<LookupId, Lookup>, hs: set<Hidden>,
                        ps: map<TrxId, Posting>, next: nat, user: UserId, id: CategoryId, copy: CategoryId)
    requires TablesOk(cs, ls, hs, ps, next) && id in cs && cs[id].kind == Global && copy in cs
    ensures TablesOk(cs, MoveLookups(ls, user, id, copy), hs + {Hidden(user, id)}, ReassignFor(ps, user, id, Some(copy)), next)
  {
    PostingsReassign(ps, cs, user, id, Some(copy));
    LookupsMove(ls, cs, user, id, copy);
  }

  lemma DeleteGlobalKeeps(cs: map<CategoryId, Category>, ls: map<LookupId, Lookup>, hs: set<Hidden>,
                          ps: map<TrxId, Posting>, next: nat, user: UserId, id: CategoryId)
    requires TablesOk(cs, ls, hs, ps, next) && id in cs && cs[id].kind == Global
    ensures TablesOk(cs, DropLookups(ls, Some(user), id), hs + {Hidden(user, id)}, ReassignFor(ps, user, id, None), next)
  {
    PostingsReassign(ps, cs, user, id, None);
    LookupsDrop(ls, cs, Some(user), id);
  }

  lemma DeleteCustomTablesKeep(cs: map<CategoryId, Category>, ls: map<LookupId, Lookup>, hs: set<Hidden>,
                               ps: map<TrxId, Posting>, next: nat, id: CategoryId)
    requires TablesOk(cs, ls, hs, ps, next) && id in cs && cs[id].kind == Custom
    ensures TablesOk(cs - {id}, DropLookups(ls, None, id), hs, ClearAll(ps, id), next)
  {
    DeleteCustomKeeps(cs, hs, ps, id);
    LookupsDrop(ls, cs, None, id);
  }

  /** What `upsert_for` leaves behind: the lookups, the next free id, and the id of the row it saved. */
  datatype Upserted = Upserted(lookups: map<LookupId, Lookup>, next: nat, id: LookupId)

  /**
   * `upsert_for` once its guards pass: the user's lookup for `norm` (or a new
   * row under the next free id) is filed under `category`, counted once more
   * and stamped with `now`; every other row stays as it was.
   */
  function UpsertLookup(ls: map<LookupId, Lookup>, next: nat, user: UserId, category: CategoryId, norm: string, now: int): (u: Upserted)
    requires Below(ls.Keys, next)
    ensures u.id in u.lookups
    ensures u.lookups[u.id].user == user && u.lookups[u.id].category == category
    ensures u.lookups[u.id].descriptionNorm == norm && u.lookups[u.id].lastUsedAt == now
    ensures forall l :: l in ls && l != u.id ==> l in u.lookups && u.lookups[l] == ls[l]
    ensures FindExact(ls, user, norm, next).Some? ==>
              && Some(u.id) == FindExact(ls, user, norm, next)
              && u.lookups.Keys == ls.Keys && u.next == next
              && u.lookups[u.id].usageCount == ls[u.id].usageCount + 1
    ensures FindExact(ls, user, norm, next).None? ==>
              && u.id == next && u.id !in ls
              && u.lookups.Keys == ls.Keys + {u.id} && u.next == next + 1
              && u.lookups[u.id].usageCount == 1
  {
    var found := FindExact(ls, user, norm, next);
    var id := if found.Some? then found.value else next;
    var count := NextUsageCount(if found.Some? then Some(ls[id].usageCount) else None);
    Upserted(ls[id := Lookup(user, category, norm, count, now)], if found.Some? then next else next + 1, id)
  }

  /** After an upsert, looking the description up again finds the row just saved. */
  lemma UpsertFinds(ls: map<LookupId, Lookup>, next: nat, user: UserId, category: CategoryId, norm: string, now: int)
    requires Below(ls.Keys, next) && LookupsUnique(ls)
    ensures FindExact(UpsertLookup(ls, next, user, category, norm, now).lookups, user, norm,
                      UpsertLookup(ls, next, user, category, norm, now).next)
            == Some(UpsertLookup(ls, next, user, category, norm, now).id)
  {
    var u := UpsertLookup(ls, next, user, category, norm, now);
    var found := FindExact(ls, user, norm, next);
    UniquePut(ls, next, u.id, u.lookups[u.id]);
    FindExactUnique(u.lookups, user, norm, u.next, u.id);
  }

  /** An upsert of a normalised, present description into an existing category keeps the tables valid. */
  lemma UpsertKeeps(cs: map<CategoryId, Category>, ls: map<LookupId, Lookup>, hs: set<Hidden>,
                    ps: map<TrxId, Posting>, next: nat, user: UserId, category: CategoryId, norm: string, now: int,
                    ls': map<LookupId, Lookup>, next': nat)
    requires TablesOk(cs, ls, hs, ps, next) && category in cs
    requires norm != [] && Squished(norm) && LowerCase(norm)
    requires ls' == UpsertLookup(ls, next, user, category, norm, now).lookups
    requires next' == UpsertLookup(ls, next, user, category, norm, now).next
    ensures TablesOk(cs, ls', hs, ps, next')
  {
    var u := UpsertLookup(ls, next, user, category, norm, now);
    LookupsPut(ls, cs, next, u.id, u.lookups[u.id]);
  }
}
