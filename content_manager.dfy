/**
 * Content authoring: a user adds, edits, deletes and searches the term/definition
 * items of the `content` store.  Edits and deletions work on the whole store by id;
 * the list shown is the user's part of it.
 */
module Authoring {
  import opened Wrappers
  import opened Text
  import opened Lists
  import opened Content

  datatype ContentForm = ContentForm(term: string, definition: string)

  const EmptyContentForm := ContentForm("", "")

  /** A field the form refuses: nothing but whitespace. */
  predicate Blank(s: string)
  {
    forall i :: 0 <= i < |s| ==> IsSpace(s[i])
  }

  /** `!s.trim()`: the form's check, which holds exactly for blank fields. */
  function TrimsToEmpty(s: string): (r: bool)
    ensures r <==> Blank(s)
  {
    TrimEmptyIffBlank(s);
    Trim(s) == ""
  }

  /** The edit applied to one item: new term and definition, stamped with `updatedAt`. */
  function Edited(c: ContentItem, term: string, definition: string, updatedAt: string): ContentItem
  {
    c.(term := term, definition := definition, updatedAt := Some(updatedAt))
  }

  /**
   * `allContent.map(c => c.id === editingId ? {...c, term, definition, updatedAt} : c)`:
   * the items with the edited id are rewritten, every other item stays as it was.
   */
  function EditItems(all: seq<ContentItem>, id: nat, term: string, definition: string, updatedAt: string)
    : (r: seq<ContentItem>)
    ensures |r| == |all|
    ensures forall i :: 0 <= i < |all| && all[i].id == id ==>
      r[i].term == term && r[i].definition == definition && r[i].updatedAt == Some(updatedAt)
      && r[i].id == id && r[i].userId == all[i].userId && r[i].createdAt == all[i].createdAt
    ensures forall i :: 0 <= i < |all| && all[i].id != id ==> r[i] == all[i]
  {
    seq(|all|, i requires 0 <= i < |all| =>
      if all[i].id == id then Edited(all[i], term, definition, updatedAt) else all[i])
  }

  /** Editing never changes which ids the store holds, nor their order. */
  lemma EditKeepsIds(all: seq<ContentItem>, id: nat, term: string, definition: string, updatedAt: string)
    ensures Ids(EditItems(all, id, term, definition, updatedAt)) == Ids(all)
  {
    var r := EditItems(all, id, term, definition, updatedAt);
    forall i | 0 <= i < |all| ensures Ids(r)[i] == Ids(all)[i] {
      if all[i].id != id {
        assert r[i] == all[i];
      }
    }
  }

  /** Editing an id no item has leaves the store as it was. */
  lemma EditAbsent(all: seq<ContentItem>, id: nat, term: string, definition: string, updatedAt: string)
    requires forall i :: 0 <= i < |all| ==> all[i].id != id
    ensures EditItems(all, id, term, definition, updatedAt) == all
  {
    var r := EditItems(all, id, term, definition, updatedAt);
    forall i | 0 <= i < |all| ensures r[i] == all[i] {
      assert all[i].id != id;
    }
  }

  /** `allContent.filter(c => c.id !== id)`. */
  function DeleteItems(all: seq<ContentItem>, id: nat): (r: seq<ContentItem>)
    ensures |r| <= |all|
    ensures forall i :: 0 <= i < |r| ==> r[i] in all && r[i].id != id
    ensures forall i :: 0 <= i < |all| && all[i].id != id ==> all[i] in r
  {
    Filter(all, (c: ContentItem) => c.id != id)
  }

  /** Deleting splits over a concatenation, so the remaining items keep their order. */
  lemma DeleteConcat(a: seq<ContentItem>, b: seq<ContentItem>, id: nat)
    ensures DeleteItems(a + b, id) == DeleteItems(a, id) + DeleteItems(b, id)
  {
    FilterConcat(a, b, (c: ContentItem) => c.id != id);
  }

  /** Deleting an id no item has leaves the store as it was. */
  lemma DeleteAbsent(all: seq<ContentItem>, id: nat)
    requires forall i :: 0 <= i < |all| ==> all[i].id != id
    ensures DeleteItems(all, id) == all
  {
    forall c | c in all ensures c.id != id {
      var i :| 0 <= i < |all| && all[i] == c;
    }
    FilterKeepsAll(all, (c: ContentItem) => c.id != id);
  }

  /** Deleting the same id twice is deleting it once. */
  lemma DeleteIdempotent(all: seq<ContentItem>, id: nat)
    ensures DeleteItems(DeleteItems(all, id), id) == DeleteItems(all, id)
  {
    var r := DeleteItems(all, id);
    forall i | 0 <= i < |r| ensures r[i].id != id {
    }
    DeleteAbsent(r, id);
  }

  /** The search test: the lower-cased term or definition includes the lower-cased query. */
  predicate Matches(item: ContentItem, query: string)
  {
    Contains(ToLower(item.term), ToLower(query)) || Contains(ToLower(item.definition), ToLower(query))
  }

  /** `filteredContent`: the items the search box lets through, in list order. */
  function Search(content: seq<ContentItem>, query: string): (r: seq<ContentItem>)
    ensures |r| <= |content|
    ensures forall i :: 0 <= i < |r| ==> r[i] in content && Matches(r[i], query)
    ensures forall i :: 0 <= i < |content| && Matches(content[i], query) ==> content[i] in r
  {
    Filter(content, (c: ContentItem) => Matches(c, query))
  }

  /** An item matches exactly when the lower-cased query occurs in its lower-cased term or definition. */
  lemma MatchesIff(item: ContentItem, query: string)
    ensures Matches(item, query) <==>
      (exists i :: OccursAt(ToLower(item.term), ToLower(query), i))
      || (exists i :: OccursAt(ToLower(item.definition), ToLower(query), i))
  {
    ContainsIff(ToLower(item.term), ToLower(query));
    ContainsIff(ToLower(item.definition), ToLower(query));
  }

  /** An empty search box shows the whole list. */
  lemma SearchEmptyQuery(content: seq<ContentItem>)
    ensures Search(content, "") == content
  {
    forall c | c in content ensures Matches(c, "") {
      ContainsEmpty(ToLower(c.term));
    }
    FilterKeepsAll(content, (c: ContentItem) => Matches(c, ""));
  }

  class ContentManager {
    const userId: nat
    /** The `content` store. */
    var storedContent: seq<ContentItem>
    /** The user's items, as last loaded. */
    var content: seq<ContentItem>
    var isEditing: bool
    var editingId: Option<nat>
    var searchTerm: string
    var form: ContentForm

    /** The list shown is the user's part of the store; edit mode always has an id. */
    ghost predicate Valid()
      reads this
    {
      content == UserContent(storedContent, userId) && (isEditing <==> editingId.Some?)
    }

    /** Mounting loads the user's items, with an empty form and search box. */
    constructor (userId: nat, storedContent: seq<ContentItem>)
      ensures this.userId == userId && this.storedContent == storedContent
      ensures Valid() && !isEditing && searchTerm == "" && form == EmptyContentForm
    {
      this.userId := userId;
      this.storedContent := storedContent;
      content := UserContent(storedContent, userId);
      isEditing := false;
      editingId := None;
      searchTerm := "";
      form := EmptyContentForm;
    }

    /** `loadContent`. */
    method LoadContent()
      modifies this`content
      ensures content == UserContent(storedContent, userId)
    {
      content := UserContent(storedContent, userId);
    }

    /** Typing into the form or the search box. */
    method SetForm(f: ContentForm)
      modifies this`form
      ensures form == f
    {
      form := f;
    }

    method SetSearch(query: string)
      modifies this`searchTerm
      ensures searchTerm == query
    {
      searchTerm := query;
    }

    /**
     * `handleSubmit` at clock reading `now` (`newId` is `Date.now()`): a blank term or
     * definition is refused and nothing changes; otherwise the item being edited is
     * rewritten, or a new item of this user is appended, and the form leaves edit mode.
     */
    method HandleSubmit(newId: nat, now: string) returns (ok: bool)
      requires Valid()
      modifies this
      ensures Valid()
      ensures ok <==> !Blank(old(form.term)) && !Blank(old(form.definition))
      ensures !ok ==>
        && storedContent == old(storedContent) && form == old(form)
        && isEditing == old(isEditing) && editingId == old(editingId)
      ensures ok && old(isEditing) ==>
        storedContent == EditItems(old(storedContent), old(editingId).value, old(form.term), old(form.definition), now)
      ensures ok && !old(isEditing) ==>
        && storedContent == old(storedContent) + [ContentItem(newId, userId, old(form.term), old(form.definition), now, None)]
        && content == old(content) + [ContentItem(newId, userId, old(form.term), old(form.definition), now, None)]
      ensures ok ==> form == EmptyContentForm && !isEditing
      ensures searchTerm == old(searchTerm)
    {
      if TrimsToEmpty(form.term) || TrimsToEmpty(form.definition) {
        return false;
      }
      if isEditing {
        storedContent := EditItems(storedContent, editingId.value, form.term, form.definition, now);
      } else {
        var item := ContentItem(newId, userId, form.term, form.definition, now, None);
        UserContentAppend(storedContent, item, userId);
        storedContent := storedContent + [item];
      }
      form := EmptyContentForm;
      isEditing := false;
      editingId := None;
      LoadContent();
      ok := true;
    }

    /** `handleEdit(item)`: the form takes the item's text and edit mode targets its id. */
    method HandleEdit(item: ContentItem)
      requires Valid()
      modifies this`form, this`isEditing, this`editingId
      ensures Valid()
      ensures form == ContentForm(item.term, item.definition) && isEditing && editingId == Some(item.id)
    {
      form := ContentForm(item.term, item.definition);
      isEditing := true;
      editingId := Some(item.id);
    }

    /** The cancel button of edit mode: leaves edit mode with an empty form. */
    method CancelEdit()
      requires Valid()
      modifies this`form, this`isEditing, this`editingId
      ensures Valid()
      ensures form == EmptyContentForm && !isEditing
    {
      isEditing := false;
      editingId := None;
      form := EmptyContentForm;
    }

    /** `handleDelete(id)`: every item with that id leaves the store; edit mode is left as it was. */
    method HandleDelete(id: nat)
      requires Valid()
      modifies this`storedContent, this`content
      ensures Valid()
      ensures storedContent == DeleteItems(old(storedContent), id)
    {
      storedContent := DeleteItems(storedContent, id);
      LoadContent();
    }

    /** `filteredContent` over the loaded list and the current search box. */
    function FilteredContent(): (r: seq<ContentItem>)
      reads this
      ensures forall i :: 0 <= i < |r| ==> r[i] in content && Matches(r[i], searchTerm)
      ensures forall i :: 0 <= i < |content| && Matches(content[i], searchTerm) ==> content[i] in r
    {
      Search(content, searchTerm)
    }
  }
}
