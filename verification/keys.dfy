/**
 * The cookie names the player keeps its progress under: one cookie per
 * material and field, `material_<id>_<field>`, plus `last_material_id`.
 */
module MaterialKeys {

  /** The four per-material progress facts. */
  datatype Field = VideoCompleted | QuizCompleted | QuizAnswers | QuizScore
  {
    function Suffix(): string
    {
      match this
      case VideoCompleted => "video_completed"
      case QuizCompleted => "quiz_completed"
      case QuizAnswers => "quiz_answers"
      case QuizScore => "quiz_score"
    }
  }

  /** getMaterialCookieName */
  function MaterialCookieName(materialId: string, suffix: string): string
  {
    "material_" + materialId + "_" + suffix
  }

  /** The cookie holding `field` of material `id`. */
  function Key(id: string, field: Field): string
  {
    MaterialCookieName(id, field.Suffix())
  }

  /** The cookie remembering the material last switched to. */
  const LastMaterialKey: string := "last_material_id"

  predicate EndsWith(s: string, tail: string)
  {
    |tail| <= |s| && s[|s| - |tail|..] == tail
  }

  /** No field's `_<suffix>` ends another's, so the id/field split of a key is unique. */
  lemma SuffixesIndependent(f: Field, g: Field)
    requires f != g
    ensures !EndsWith("_" + g.Suffix(), "_" + f.Suffix())
  {
    var t, u := "_" + f.Suffix(), "_" + g.Suffix();
    if |t| <= |u| {
      var d := |u| - |t|;
      assert u[d..][0] == u[d] && u[d..][|t| - 1] == u[|u| - 1];
      if f == QuizCompleted && g == VideoCompleted {
        assert u[d] == 'v' != '_' == t[0];
      } else {
        assert u[|u| - 1] != t[|t| - 1];
      }
    }
  }

  /** `a + t == b + u` splits uniquely when neither tail ends the other (or they are equal). */
  lemma SplitUnique(a: string, t: string, b: string, u: string)
    requires a + t == b + u
    requires t == u || (!EndsWith(u, t) && !EndsWith(t, u))
    ensures a == b && t == u
  {
    var s := a + t;
    if |t| <= |u| {
      assert s[|s| - |t|..] == t;
      assert s[|s| - |t|..] == u[|u| - |t|..];
    }
    assert a == s[..|a|] == b;
  }

  /** Two names built on the same prefix agree after it. */
  lemma SamePrefix(p: string, x: string, y: string)
    requires p + x == p + y
    ensures x == y
  {
    assert x == (p + x)[|p|..] == (p + y)[|p|..] == y;
  }

  /** A key is the prefix `material_`, the id and the tail `_<suffix>`. */
  lemma KeyShape(id: string, f: Field)
    ensures Key(id, f) == "material_" + (id + ("_" + f.Suffix()))
  {
  }

  /** Different materials or different fields never share a cookie. */
  lemma KeyInjective(id1: string, f1: Field, id2: string, f2: Field)
    requires Key(id1, f1) == Key(id2, f2)
    ensures id1 == id2 && f1 == f2
  {
    var t1, t2 := "_" + f1.Suffix(), "_" + f2.Suffix();
    KeyShape(id1, f1);
    KeyShape(id2, f2);
    SamePrefix("material_", id1 + t1, id2 + t2);
    if f1 != f2 {
      SuffixesIndependent(f1, f2);
      SuffixesIndependent(f2, f1);
    }
    SplitUnique(id1, t1, id2, t2);
  }

  /** `last_material_id` is never a material's progress cookie. */
  lemma LastMaterialKeyIsNoMaterialKey(id: string, f: Field)
    ensures Key(id, f) != LastMaterialKey
  {
    assert Key(id, f)[0] == 'm' != 'l' == LastMaterialKey[0];
  }
}
