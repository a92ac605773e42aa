/**
 * The materials document (`materials.json`) and the choice of the material
 * shown first by `loadMaterials`.
 */
module Catalog {
  import opened Options

  /** One quiz question; its options are lettered A, B, C, ... by position. */
  datatype Question = Question(text: string, options: seq<string>)

  /**
   * One learning unit. `answerKey[i]` is the letter of the correct option of
   * `questions[i]`.
   */
  datatype Material = Material(
    id: string,
    title: string,
    description: string,
    youtubeUrl: string,
    questions: seq<Question>,
    answerKey: seq<char>)

  /** JavaScript truthiness of a string-or-null: `null` and `""` are falsy. */
  predicate Truthy(v: Option<string>)
  {
    v.Some? && v.value != ""
  }

  /** The position `materials.find(m => m.id === id)` stops at: the first material with that id. */
  function FindIndex(catalog: seq<Material>, id: string): (r: Option<nat>)
    ensures r.Some? ==> r.value < |catalog| && catalog[r.value].id == id
    ensures r.Some? ==> forall j :: 0 <= j < r.value ==> catalog[j].id != id
    ensures r.None? <==> forall j :: 0 <= j < |catalog| ==> catalog[j].id != id
  {
    if |catalog| == 0 then None
    else if catalog[0].id == id then Some(0)
    else match FindIndex(catalog[1..], id)
      case None => None
      case Some(k) => Some(k + 1)
  }

  /** `materials.find(m => m.id === id)`, `None` for `undefined`. */
  function Find(catalog: seq<Material>, id: string): (r: Option<Material>)
    ensures r.Some? ==> r.value in catalog && r.value.id == id
    // the first material carrying the id
    ensures r.Some? ==> exists k :: 0 <= k < |catalog| && r.value == catalog[k] && forall j :: 0 <= j < k ==> catalog[j].id != id
    ensures r.None? <==> forall j :: 0 <= j < |catalog| ==> catalog[j].id != id
  {
    match FindIndex(catalog, id)
    case None => None
    case Some(k) => Some(catalog[k])
  }

  /** Whether some material carries `id`. */
  predicate Listed(catalog: seq<Material>, id: string)
  {
    exists j :: 0 <= j < |catalog| && catalog[j].id == id
  }

  /**
   * The material `loadMaterials` starts with, as a position in the
   * catalogue: the id is the URL's `id` parameter, else the
   * `last_material_id` cookie, else the first material's id (falsy values are
   * skipped), and an id that no material carries falls back to the first
   * material. An empty catalogue stops before anything is chosen.
   */
  function ResolveInitial(catalog: seq<Material>, urlId: Option<string>, lastId: Option<string>): (r: Option<nat>)
    ensures r.None? <==> |catalog| == 0
    ensures r.Some? ==> r.value < |catalog|
    // a URL id that names a material wins over the cookie
    ensures r.Some? && Truthy(urlId) && Listed(catalog, urlId.value) ==>
      catalog[r.value].id == urlId.value && forall j :: 0 <= j < r.value ==> catalog[j].id != urlId.value
    // a URL id that names no material falls back to the first, without trying the cookie
    ensures r.Some? && Truthy(urlId) && !Listed(catalog, urlId.value) ==> r.value == 0
    // without a URL id, a cookie id that names a material is chosen
    ensures r.Some? && !Truthy(urlId) && Truthy(lastId) && Listed(catalog, lastId.value) ==>
      catalog[r.value].id == lastId.value && forall j :: 0 <= j < r.value ==> catalog[j].id != lastId.value
    ensures r.Some? && !Truthy(urlId) && Truthy(lastId) && !Listed(catalog, lastId.value) ==> r.value == 0
    ensures r.Some? && !Truthy(urlId) && !Truthy(lastId) ==> r.value == 0
  {
    if |catalog| == 0 then None
    else
      var candidate := if Truthy(urlId) then urlId.value else if Truthy(lastId) then lastId.value else catalog[0].id;
      match FindIndex(catalog, candidate)
      case Some(k) => Some(k)
      case None => Some(0)
  }
}
