/** An account category (models/category.py): a name of at least two
    characters that is not blank, and an optional icon. */
module Categories {
  import opened Outcomes
  import opened Text
  import opened Dicts

  datatype Category = Category(id: Option<int>, name: string, icon: Option<string>)

  const NameIsNull := "Category can't be null."
  /** The message says three characters; the test it reports is `len < 2`. */
  const NameTooShort := "Category name have to be longer than 3 char."

  /** What `validate` accepts. */
  predicate IsValidName(name: string) {
    !IsBlank(name) && |name| >= 2
  }

  /** `validate()` on the name as it was given: `not name or not
      name.strip()`, then `len(name) < 2`. */
  function Validate(name: Value): (r: Outcome)
    ensures r.Pass? <==> name.PyStr? && IsValidName(name.s)
    ensures RequireText(name, NameIsNull).Fail? ==> r == RequireText(name, NameIsNull)
    ensures name.PyStr? && !IsBlank(name.s) && |name.s| < 2 ==> r == Fail(ValueError(NameTooShort))
  {
    if RequireText(name, NameIsNull).Fail? then RequireText(name, NameIsNull)
    else if |name.s| < 2 then Fail(ValueError(NameTooShort))
    else Pass
  }

  /** The constructor on the values as given: validate the name, then keep
      id and icon in the record's typed fields. An id or icon of another
      type (a string id, an `int` icon) cannot be held and is refused. */
  function Construct(id: Value, name: Value, icon: Value): (r: Result<Category>)
    ensures Validate(name).Fail? ==> r == Err(Validate(name).error)
    ensures r.Ok? <==> Validate(name).Pass? && !id.PyStr? && !icon.PyInt?
    ensures r.Ok? ==> r.value == Category(if id.PyInt? then Some(id.i) else None, name.s,
                                          if icon.PyStr? then Some(icon.s) else None)
  {
    match Validate(name)
    case Fail(e) => Err(e)
    case Pass =>
      var categoryId :- OptionalInt(id, "id");
      var iconText :- OptionalText(icon, "icon");
      Ok(Category(categoryId, name.s, iconText))
  }

  /** `Category(name, category_id, icon)` with arguments of the declared
      types: assign, then validate. */
  function NewCategory(name: string, categoryId: Option<int>, icon: Option<string>): (r: Result<Category>)
    ensures r.Ok? <==> IsValidName(name)
    ensures IsBlank(name) ==> r == Err(ValueError(NameIsNull))
    ensures !IsBlank(name) && |name| < 2 ==> r == Err(ValueError(NameTooShort))
    ensures r.Ok? ==> r.value == Category(categoryId, name, icon)
  {
    Construct(FromOptionalInt(categoryId), PyStr(name), FromOptionalText(icon))
  }

  /** A one-character name that is not blank passes the blank test and is
      refused only by the length test. */
  lemma SingleCharacterRefused(c: char)
    requires !IsSpace(c)
    ensures NewCategory([c], None, None) == Err(ValueError(NameTooShort))
  {
    assert !IsBlank([c]) by { assert !IsSpace([c][0]); }
  }

  /** `to_dict()`. */
  function ToDict(c: Category): (d: Dict)
    ensures d.Keys == {"id", "name", "icon"}
    ensures d["name"] == PyStr(c.name)
    ensures c.id.None? ==> d["id"] == PyNone
    ensures c.icon.None? ==> d["icon"] == PyNone
  {
    map["id" := FromOptionalInt(c.id), "name" := PyStr(c.name), "icon" := FromOptionalText(c.icon)]
  }

  /** `Category.from_dict(data)`: `id` and `icon` are read with `get`,
      `name` with `data["name"]`, then the constructor validates. */
  function FromDict(data: Dict): (r: Result<Category>)
    ensures r.Ok? ==> "name" in data && IsValidName(r.value.name)
    ensures r.Ok? && "id" !in data ==> r.value.id == None
    ensures r.Ok? && "icon" !in data ==> r.value.icon == None
    ensures "name" !in data ==> r == Err(KeyError("name"))
  {
    var nameValue :- Index(data, "name");
    Construct(Get(data, "id"), nameValue, Get(data, "icon"))
  }

  /** `from_dict(to_dict(c))` gives back id, name and icon. */
  lemma FromDictToDict(c: Category)
    requires IsValidName(c.name)
    ensures FromDict(ToDict(c)) == Ok(c)
  {
    var d := ToDict(c);
    assert Get(d, "id") == FromOptionalInt(c.id) && Get(d, "icon") == FromOptionalText(c.icon);
  }
}
