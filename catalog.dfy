/**
 * The seller, category and brand collections: documents with a required,
 * unique, trimmed name, looked up by name (`findOne({ name })`) and by id
 * (`populate`), and created by createSeller, createCategory and createBrand.
 */
module Catalog {
  import opened Wrappers
  import opened Text
  import opened Records

  /** `findOne({ name })`. */
  function FindByName(entries: seq<CatalogEntry>, name: string): (r: Option<CatalogEntry>)
    ensures r.Some? ==> r.value in entries && r.value.name == name
    ensures r.None? ==> forall i :: 0 <= i < |entries| ==> entries[i].name != name
  {
    if entries == [] then None
    else if entries[0].name == name then Some(entries[0])
    else FindByName(entries[1..], name)
  }

  /** The document a reference populates to, if it still exists. */
  function FindById(entries: seq<CatalogEntry>, id: Id): (r: Option<CatalogEntry>)
    ensures r.Some? ==> r.value in entries && r.value.id == id
    ensures r.None? ==> forall i :: 0 <= i < |entries| ==> entries[i].id != id
  {
    if entries == [] then None
    else if entries[0].id == id then Some(entries[0])
    else FindById(entries[1..], id)
  }

  ghost predicate UniqueNames(entries: seq<CatalogEntry>) {
    forall i, j :: 0 <= i < j < |entries| ==> entries[i].name != entries[j].name
  }

  ghost predicate UniqueIds(entries: seq<CatalogEntry>) {
    forall i, j :: 0 <= i < j < |entries| ==> entries[i].id != entries[j].id
  }

  /** What every saved collection satisfies: unique names (the unique index),
   *  unique ids below the next fresh one, names required and trimmed. */
  ghost predicate WellFormed(entries: seq<CatalogEntry>, nextId: nat) {
    && UniqueNames(entries)
    && UniqueIds(entries)
    && forall i :: 0 <= i < |entries| ==>
         entries[i].id < nextId && CatalogSchemaValid(entries[i]) && IsTrimmed(entries[i].name)
  }

  /** With unique names, resolving an entry's name yields that entry and no other. */
  lemma {:induction false} FindByNameUnique(entries: seq<CatalogEntry>, i: nat)
    requires UniqueNames(entries)
    requires i < |entries|
    ensures FindByName(entries, entries[i].name) == Some(entries[i])
  {
    if i > 0 {
      assert entries[0].name != entries[i].name;
      assert entries[1..][i - 1] == entries[i];
      FindByNameUnique(entries[1..], i - 1);
    }
  }

  /** With unique ids, an entry populates from its own id. */
  lemma {:induction false} FindByIdUnique(entries: seq<CatalogEntry>, i: nat)
    requires UniqueIds(entries)
    requires i < |entries|
    ensures FindById(entries, entries[i].id) == Some(entries[i])
  {
    if i > 0 {
      assert entries[0].id != entries[i].id;
      assert entries[1..][i - 1] == entries[i];
      FindByIdUnique(entries[1..], i - 1);
    }
  }

  /** What saving `new Seller({ name })` does: the name is trimmed; a missing or
   *  blank name fails the `required` validator; a name already present fails
   *  the unique index. */
  function NewEntryOutcome(entries: seq<CatalogEntry>, name: Option<string>, id: Id): (r: Result<CatalogEntry, Error>)
    ensures r.Success? <==> name.Some? && Trim(name.value) != "" && FindByName(entries, Trim(name.value)).None?
    ensures r.Success? ==> r.value.id == id && r.value.name == Trim(name.value)
    ensures r.Failure? ==> (r.error == DuplicateName <==> name.Some? && Trim(name.value) != "")
    ensures r.Failure? ==> (r.error == ValidationFailed <==> name.None? || Trim(name.value) == "")
  {
    if name.None? || Trim(name.value) == "" then Failure(ValidationFailed)
    else if FindByName(entries, Trim(name.value)).Some? then Failure(DuplicateName)
    else Success(CatalogEntry(id, Trim(name.value)))
  }

  /** A successful create keeps the collection well formed, and the new name
   *  resolves to the new entry from then on. */
  lemma NewEntryKeepsWellFormed(entries: seq<CatalogEntry>, nextId: nat, name: Option<string>)
    requires WellFormed(entries, nextId)
    requires NewEntryOutcome(entries, name, nextId).Success?
    ensures WellFormed(entries + [NewEntryOutcome(entries, name, nextId).value], nextId + 1)
    ensures FindByName(entries + [NewEntryOutcome(entries, name, nextId).value], Trim(name.value))
         == Some(NewEntryOutcome(entries, name, nextId).value)
  {
    var e := NewEntryOutcome(entries, name, nextId).value;
    AppendKeepsWellFormed(entries, nextId, e);
    FindByNameUnique(entries + [e], |entries|);
  }

  /** Appending a trimmed, non-blank name that is not present yet, under the
   *  next fresh id, keeps the collection well formed. */
  lemma AppendKeepsWellFormed(entries: seq<CatalogEntry>, nextId: nat, e: CatalogEntry)
    requires WellFormed(entries, nextId)
    requires e.id == nextId && CatalogSchemaValid(e) && IsTrimmed(e.name)
    requires FindByName(entries, e.name).None?
    ensures WellFormed(entries + [e], nextId + 1)
  {
    var s := entries + [e];
    forall i, j | 0 <= i < j < |s| ensures s[i].name != s[j].name && s[i].id != s[j].id {
      assert s[i] == entries[i];
      if j < |entries| {
        assert s[j] == entries[j];
      }
    }
  }

  /** One collection (the Seller, Category or Brand model). */
  class Registry {
    var entries: seq<CatalogEntry>
    var nextId: nat

    ghost predicate Valid()
      reads this
    {
      WellFormed(entries, nextId)
    }

    constructor ()
      ensures Valid() && entries == []
    {
      entries := [];
      nextId := 0;
    }

    /** createSeller / createCategory / createBrand. */
    method Create(name: Option<string>) returns (r: Result<CatalogEntry, Error>)
      requires Valid()
      modifies this
      ensures Valid()
      ensures r == NewEntryOutcome(old(entries), name, old(nextId))
      ensures entries == if r.Success? then old(entries) + [r.value] else old(entries)
    {
      r := NewEntryOutcome(entries, name, nextId);
      if r.Success? {
        NewEntryKeepsWellFormed(entries, nextId, name);
        entries := entries + [r.value];
        nextId := nextId + 1;
      }
    }
  }
}
