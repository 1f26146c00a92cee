/** The dish dialog: its form fields, the checks on a chosen image file, the tag list editing,
    the preset tag suggestions and the record it saves. The form fields are the dialog's state
    and the handlers overwrite them, so the form is a class. */
module DishEditor {
  import opened Types
  import opened Strings
  import opened Catalog
  import MenuService

  /** The largest image file accepted: 5 MB. */
  const MaxImageBytes: nat := 5 * 1024 * 1024

  /** The image a dish saved without one shows. */
  const DefaultImage: string := "https://images.pexels.com/photos/1640777/pexels-photo-1640777.jpeg?w=400&h=300&fit=crop"

  const PresetTags: seq<string> := [
    "经典", "人气", "下饭", "快手", "清淡", "健康",
    "微辣", "中辣", "麻辣", "甜口", "酥脆", "鲜美",
    "素食", "低油", "凉菜", "热菜", "主食"
  ]

  /** The most suggestions shown at once. */
  const MaxSuggestions: nat := 12

  /** What choosing a file leads to. */
  datatype FileOutcome = NoFile | NotAnImage | TooLarge | ReadAsDataUrl

  /** `handleFileSelect`: no file, then a type not starting with `image/`, then a size over
      5 MB; only a file passing both checks is read. */
  function CheckFile(file: Option<(string, nat)>): (r: FileOutcome)
    ensures r == NoFile <==> file.None?
    ensures r == NotAnImage <==> file.Some? && !StartsWith(file.value.0, "image/")
    ensures r == TooLarge <==> file.Some? && StartsWith(file.value.0, "image/") && file.value.1 > 5242880
    ensures r == ReadAsDataUrl <==> file.Some? && StartsWith(file.value.0, "image/") && file.value.1 <= 5242880
  {
    if file.None? then NoFile
    else if !StartsWith(file.value.0, "image/") then NotAnImage
    else if file.value.1 > MaxImageBytes then TooLarge
    else ReadAsDataUrl
  }

  predicate NoDuplicates(s: seq<string>) {
    forall i, j :: 0 <= i < j < |s| ==> s[i] != s[j]
  }

  /** The tag list after `handleAddTag(tag)`, `t` being the trimmed tag: `t` appended unless
      it is empty or already there. */
  function TagAdded(tags: seq<string>, t: string): (r: seq<string>)
    ensures t in r <==> t != [] || t in tags
    ensures forall x :: x != t ==> (x in r <==> x in tags)
    ensures t != [] && t !in tags ==> r == tags + [t]
    ensures !(t != [] && t !in tags) ==> r == tags
  {
    if t != [] && t !in tags then tags + [t] else tags
  }

  /** Adding keeps the list duplicate-free. */
  lemma AddKeepsDistinct(tags: seq<string>, tag: string)
    requires NoDuplicates(tags)
    ensures NoDuplicates(TagAdded(tags, tag))
  {
    var r := TagAdded(tags, tag);
    if r != tags {
      forall i, j | 0 <= i < j < |r| ensures r[i] != r[j] {
        if j == |tags| {
          assert r[i] == tags[i];
        }
      }
    }
  }

  /** The tag list after `handleRemoveTag(tag)`: every occurrence of the tag filtered out. */
  function TagRemoved(tags: seq<string>, tag: string): (r: seq<string>)
    ensures tag !in r
    ensures forall x :: x != tag ==> (x in r <==> x in tags)
    ensures tag !in tags ==> r == tags
  {
    if tags == [] then []
    else (if tags[0] == tag then [] else [tags[0]]) + TagRemoved(tags[1..], tag)
  }

  /** Removal keeps the order of the tags that stay: filtering a joined list is filtering
      each part, and a single tag stays exactly when it is not the removed one. */
  lemma {:induction false} TagRemovedAppend(a: seq<string>, b: seq<string>, tag: string)
    ensures TagRemoved(a + b, tag) == TagRemoved(a, tag) + TagRemoved(b, tag)
  {
    if a == [] {
      assert a + b == b;
    } else {
      var head := if a[0] == tag then [] else [a[0]];
      assert (a + b)[0] == a[0] && (a + b)[1..] == a[1..] + b;
      assert TagRemoved(a + b, tag) == head + TagRemoved(a[1..] + b, tag);
      TagRemovedAppend(a[1..], b, tag);
      assert TagRemoved(a, tag) == head + TagRemoved(a[1..], tag);
    }
  }

  /** A single tag stays exactly when it is not the removed one. */
  lemma TagRemovedSingle(x: string, tag: string)
    ensures TagRemoved([x], tag) == if x == tag then [] else [x]
  {
    assert [x][1..] == [];
  }

  /** Removing keeps the list duplicate-free. */
  lemma {:induction false} RemoveKeepsDistinct(tags: seq<string>, tag: string)
    requires NoDuplicates(tags)
    ensures NoDuplicates(TagRemoved(tags, tag))
  {
    if tags != [] {
      var rest := TagRemoved(tags[1..], tag);
      assert NoDuplicates(tags[1..]) by {
        forall i, j | 0 <= i < j < |tags[1..]| ensures tags[1..][i] != tags[1..][j] {
          assert tags[1..][i] == tags[i + 1] && tags[1..][j] == tags[j + 1];
        }
      }
      RemoveKeepsDistinct(tags[1..], tag);
      if tags[0] != tag {
        assert tags[0] !in tags[1..] by {
          forall k | 0 <= k < |tags[1..]| ensures tags[1..][k] != tags[0] {
            assert tags[1..][k] == tags[k + 1];
          }
        }
        assert tags[0] !in rest;
        var r := [tags[0]] + rest;
        forall i, j | 0 <= i < j < |r| ensures r[i] != r[j] {
          if i == 0 {
            assert r[j] == rest[j - 1];
          } else {
            assert r[i] == rest[i - 1] && r[j] == rest[j - 1];
          }
        }
      }
    }
  }

  /** Adding a new tag and removing it again gives back the list. */
  lemma {:induction false} AddThenRemoveTag(tags: seq<string>, t: string)
    requires t != [] && t !in tags
    ensures TagRemoved(TagAdded(tags, t), t) == tags
  {
    if tags == [] {
      assert TagRemoved([t], t) == [] + TagRemoved([], t);
    } else {
      assert (tags + [t])[1..] == tags[1..] + [t];
      AddThenRemoveTag(tags[1..], t);
      assert TagRemoved(tags + [t], t) == [tags[0]] + TagRemoved(tags[1..] + [t], t);
    }
  }

  /** The presets not yet chosen, in preset order. */
  function Unchosen(presets: seq<string>, tags: seq<string>): (r: seq<string>)
    ensures |r| <= |presets|
    ensures forall x :: x in r <==> x in presets && x !in tags
    ensures tags == [] ==> r == presets
  {
    if presets == [] then []
    else (if presets[0] in tags then [] else [presets[0]]) + Unchosen(presets[1..], tags)
  }

  /** The suggestion buttons: `PRESET_TAGS.filter(t => !tags.includes(t)).slice(0, 12)`. */
  function Suggestions(tags: seq<string>): (r: seq<string>)
    ensures |r| <= MaxSuggestions
    ensures forall i :: 0 <= i < |r| ==> r[i] in PresetTags && r[i] !in tags
    ensures |Unchosen(PresetTags, tags)| <= MaxSuggestions ==> forall x :: x in PresetTags && x !in tags ==> x in r
    ensures |r| <= |Unchosen(PresetTags, tags)| && r == Unchosen(PresetTags, tags)[..|r|]
  {
    var u := Unchosen(PresetTags, tags);
    if |u| <= MaxSuggestions then u else u[..MaxSuggestions]
  }

  /** With no tag chosen the first twelve presets are offered, in order. */
  lemma FreshSuggestions()
    ensures Suggestions([]) == PresetTags[..12]
  {
  }

  /** A string without surrounding white space trims to itself. */
  lemma Untrimmed(s: string)
    requires s != [] && !IsSpace(s[0]) && !IsSpace(s[|s| - 1])
    ensures Trim(s) == s
  {
    TrimFramed([], s, []);
    assert [] + s + [] == s;
    assert TrimEnd([]) == [];
  }

  /** No preset tag is empty or has white space around it. */
  lemma PresetsPlain()
    ensures forall t :: t in PresetTags ==> t != [] && !IsSpace(t[0]) && !IsSpace(t[|t| - 1])
  {
    forall t | t in PresetTags
      ensures t != [] && !IsSpace(t[0]) && !IsSpace(t[|t| - 1])
    {
      assert |t| == 2 && '\U{4E00}' <= t[0] <= '\U{9FFF}' && '\U{4E00}' <= t[1] <= '\U{9FFF}';
    }
  }

  /** Pressing a suggestion appends exactly that preset. */
  lemma SuggestionAppends(tags: seq<string>, i: nat)
    requires i < |Suggestions(tags)|
    ensures TagAdded(tags, Trim(Suggestions(tags)[i])) == tags + [Suggestions(tags)[i]]
  {
    var s := Suggestions(tags)[i];
    PresetsPlain();
    Untrimmed(s);
  }

  /** What saving the dialog does. */
  datatype SaveOutcome =
    | SaveRefused
    | AddDishOp(dish: Dish)
    | UpdateDishOp(id: string, data: Dish)

  /** The whole record as a patch: `updateDish(id, dishData)` spreads every field, `tags`
      included even when it is `undefined`. */
  function AsPatch(d: Dish): (p: DishPatch)
    ensures forall before :: MergeDish(before, p) == d
    ensures p.tags == Some(d.tags)
  {
    DishPatch(Some(d.id), Some(d.name), Some(d.description), Some(d.image), Some(d.category), Some(d.tags))
  }

  /** The dialog's form. */
  class DishForm {
    var name: string
    var description: string
    var image: string
    var category: string
    var tags: seq<string>
    var newTag: string
    var showTagInput: bool

    constructor()
      ensures name == [] && description == [] && image == [] && category == [] && tags == []
      ensures newTag == [] && !showTagInput
    {
      name, description, image, category, tags := [], [], [], [], [];
      newTag, showTagInput := [], false;
    }

    /** Opening the dialog: the dish's fields when editing; otherwise empty fields and the
        default category, falling back to the first category's id, then to none. */
    method Open(dish: Option<Dish>, defaultCategory: string, categories: seq<Category>)
      modifies this
      ensures dish.Some? ==>
        && name == dish.value.name && description == dish.value.description
        && image == dish.value.image && category == dish.value.category
        && tags == (if dish.value.tags.Some? then dish.value.tags.value else [])
      ensures dish.None? ==>
        && name == [] && description == [] && image == [] && tags == []
        && category == (if defaultCategory != [] then defaultCategory
                        else if categories != [] then categories[0].id else [])
      ensures newTag == [] && !showTagInput
    {
      if dish.Some? {
        name, description, image, category := dish.value.name, dish.value.description, dish.value.image, dish.value.category;
        tags := if dish.value.tags.Some? then dish.value.tags.value else [];
      } else {
        name, description, image, tags := [], [], [], [];
        category := if defaultCategory != [] then defaultCategory
                    else if categories != [] && categories[0].id != [] then categories[0].id
                    else [];
      }
      newTag, showTagInput := [], false;
    }

    /** `handleAddTag(tag)`: the tag input is closed and emptied whether or not a tag was added. */
    method AddTag(tag: string)
      modifies this
      ensures tags == TagAdded(old(tags), Trim(tag))
      ensures NoDuplicates(old(tags)) ==> NoDuplicates(tags)
      ensures newTag == [] && !showTagInput
      ensures name == old(name) && description == old(description) && image == old(image)
      ensures category == old(category)
    {
      var added := TagAdded(tags, Trim(tag));
      if NoDuplicates(tags) {
        AddKeepsDistinct(tags, Trim(tag));
      }
      tags, newTag, showTagInput := added, [], false;
    }

    /** `handleRemoveTag(tag)`. */
    method RemoveTag(tag: string)
      modifies this
      ensures tags == TagRemoved(old(tags), tag)
      ensures NoDuplicates(old(tags)) ==> NoDuplicates(tags)
      ensures name == old(name) && description == old(description) && image == old(image)
      ensures category == old(category) && newTag == old(newTag) && showTagInput == old(showTagInput)
    {
      if NoDuplicates(tags) {
        RemoveKeepsDistinct(tags, tag);
      }
      tags := TagRemoved(tags, tag);
    }

    /** `handleSave`. `editing` is the dish the dialog was opened on (none when adding);
        `newId` is the id `generateId()` would produce, `GeneratedId("dish_", …)`. */
    function Save(editing: Option<Dish>, newId: string): (r: SaveOutcome)
      reads this
      ensures r.SaveRefused? <==> Trim(name) == [] || category == []
      ensures !r.SaveRefused? ==> (r.UpdateDishOp? <==> editing.Some?)
      ensures r.UpdateDishOp? ==> r.id == editing.value.id
      ensures !r.SaveRefused? ==>
        var d := if r.AddDishOp? then r.dish else r.data;
        && d.id == (if editing.Some? && editing.value.id != [] then editing.value.id else newId)
        && d.name == Trim(name) && d.name != [] && d.description == Trim(description)
        && d.image == (if Trim(image) == [] then DefaultImage else Trim(image))
        && d.image != []
        && d.category == category
        && (d.tags.None? <==> tags == [])
        && (d.tags.Some? ==> d.tags.value == tags)
    {
      if Trim(name) == [] || category == [] then SaveRefused
      else
        var d := Dish(
          if editing.Some? && editing.value.id != [] then editing.value.id else newId,
          Trim(name), Trim(description),
          if Trim(image) == [] then DefaultImage else Trim(image),
          category,
          if |tags| > 0 then Some(tags) else None);
        if editing.Some? then UpdateDishOp(editing.value.id, d) else AddDishOp(d)
    }
  }

  /** Saving with every tag removed: the store clears the dish's tags, but the update record
      sent to the database carries no `tags` column, so the stored row keeps the old ones and
      they come back on the next fetch. With the corrected record the row read back is the
      dish the store holds. */
  lemma ClearedTagsThroughDialog(form: DishForm, d: Dish, newId: string, sortOrder: int)
    requires d.id != [] && d.tags.Some?
    requires Trim(form.name) != [] && form.category != [] && form.tags == []
    ensures form.Save(Some(d), newId).UpdateDishOp?
    ensures MergeDish(d, AsPatch(form.Save(Some(d), newId).data)).tags == None
    ensures MenuService.RowToDish(MenuService.ApplyDishRecord(MenuService.DishToRow(d, sortOrder),
              MenuService.DishUpdateRecord(AsPatch(form.Save(Some(d), newId).data)))).tags == d.tags
    ensures MenuService.RowToDish(MenuService.ApplyDishRecord(MenuService.DishToRow(d, sortOrder),
              MenuService.DishUpdateRecordFixed(AsPatch(form.Save(Some(d), newId).data))))
            == MergeDish(d, AsPatch(form.Save(Some(d), newId).data))
  {
    var p := AsPatch(form.Save(Some(d), newId).data);
    MenuService.UpdateRecordAgrees(d, sortOrder, p);
  }
}
