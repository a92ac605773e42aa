/**
 * The progress state machine of script.js: the session fields
 * (`materials`, `currentMaterialId`, `currentMaterial`, `videoCompleted`,
 * `quizSubmitted`) over the cookie jar, the view chosen when a material
 * loads, and the transitions on end of playback, submit, retake and
 * material switch.
 */
module Progress {
  import opened Options
  import opened Cookies
  import opened MaterialKeys
  import opened Catalog
  import opened Quiz
  import opened AnswersJson

  /** What loadMaterial's ready callback finds stored for a material. */
  datatype Stage =
    | VideoPending                      // neither branch of the callback applies
    | QuizPending                       // `video_completed` is 'true' and no completed quiz with saved answers
    | QuizDone(answers: seq<Answer>)    // `quiz_completed` is 'true' and the saved answers parse
    | AnswersCorrupt                    // `quiz_completed` is 'true' and JSON.parse rejects the saved answers

  /** The decision of loadMaterial (script.js:164-166, 193, 213). */
  function StageOf(jar: Jar, id: string): Stage
  {
    var quizCompleted := Lookup(jar, Key(id, QuizCompleted)) == Some("true");
    var savedAnswers := Lookup(jar, Key(id, QuizAnswers));
    var videoWatched := Lookup(jar, Key(id, VideoCompleted)) == Some("true");
    if quizCompleted && Truthy(savedAnswers) then
      match ParseAnswers(savedAnswers.value)
      case Some(answers) => QuizDone(answers)
      case None => AnswersCorrupt
    else if videoWatched then QuizPending
    else VideoPending
  }

  /** What the quiz section shows. */
  datatype View =
    | VideoOnly                                       // the quiz section stays hidden
    | QuizForm(previousScore: Option<string>)         // the form, with the "Nilai sebelumnya" banner when present
    | Results(score: string, review: seq<ReviewItem>) // the form hidden, score and review shown
    // rendering the results threw and no results appear; the form is hidden on the
    // load path (script.js:203-205), but after a submit it stays on screen
    | ResultsUnavailable

  /** showQuizSection: the banner appears when `quiz_score` is truthy and nothing was submitted this session. */
  function QuizFormView(jar: Jar, id: string, quizSubmitted: bool): View
  {
    var previousScore := Lookup(jar, Key(id, QuizScore));
    QuizForm(if Truthy(previousScore) && !quizSubmitted then previousScore else None)
  }

  /** What displayResults renders. */
  function ResultsView(answers: seq<Answer>, m: Material): View
  {
    match Review(answers, m)
    case Some(items) => Results(Score(answers, m), items)
    case None => ResultsUnavailable
  }

  /** The view loadMaterial's ready callback leaves on screen. */
  function LoadView(jar: Jar, m: Material, quizSubmitted: bool): View
  {
    match StageOf(jar, m.id)
    case VideoPending => VideoOnly
    case QuizPending => QuizFormView(jar, m.id, quizSubmitted)
    case QuizDone(answers) => ResultsView(answers, m)
    case AnswersCorrupt => ResultsUnavailable
  }

  // ----- The jar after each transition -----

  /** displayResults stores the score it computed. */
  function WithScore(jar: Jar, m: Material, answers: seq<Answer>): Jar
  {
    SetCookie(jar, Key(m.id, QuizScore), Score(answers, m))
  }

  /** Loading a material with a completed quiz runs displayResults again, which rewrites the score. */
  function LoadedJar(jar: Jar, m: Material): Jar
  {
    match StageOf(jar, m.id)
    case QuizDone(answers) => WithScore(jar, m, answers)
    case _ => jar
  }

  /** A complete submit stores the answers, the completion flag and the score. */
  function SubmittedJar(jar: Jar, m: Material, answers: seq<Answer>): Jar
  {
    var withAnswers := SetCookie(jar, Key(m.id, QuizAnswers), Stringify(answers));
    WithScore(SetCookie(withAnswers, Key(m.id, QuizCompleted), "true"), m, answers)
  }

  /** Retake deletes the completion flag and the answers. */
  function RetakenJar(jar: Jar, id: string): Jar
  {
    DeleteCookie(DeleteCookie(jar, Key(id, QuizCompleted)), Key(id, QuizAnswers))
  }

  /** The first end of playback records the video as watched. */
  function EndedJar(jar: Jar, id: string): Jar
  {
    SetCookie(jar, Key(id, VideoCompleted), "true")
  }

  // ----- Properties of the transitions -----

  /** The four progress cookies of one material are four different cookies. */
  lemma FieldsApart(id: string)
    ensures Key(id, VideoCompleted) != Key(id, QuizCompleted)
    ensures Key(id, VideoCompleted) != Key(id, QuizAnswers)
    ensures Key(id, VideoCompleted) != Key(id, QuizScore)
    ensures Key(id, QuizCompleted) != Key(id, QuizAnswers)
    ensures Key(id, QuizCompleted) != Key(id, QuizScore)
    ensures Key(id, QuizAnswers) != Key(id, QuizScore)
  {
    forall f: Field, g: Field | f != g ensures Key(id, f) != Key(id, g) {
      if Key(id, f) == Key(id, g) {
        KeyInjective(id, f, id, g);
      }
    }
  }

  /**
   * The load-time decision, in its order: results (or their failure) exactly
   * when `quiz_completed` is 'true' and saved answers are present; otherwise
   * the quiz form exactly when `video_completed` is 'true'; otherwise the
   * video alone. A completed flag without saved answers falls through to the
   * video check.
   */
  lemma StageOrder(jar: Jar, id: string)
    ensures var done := Lookup(jar, Key(id, QuizCompleted)) == Some("true") && Truthy(Lookup(jar, Key(id, QuizAnswers)));
      && (StageOf(jar, id).QuizDone? || StageOf(jar, id).AnswersCorrupt? <==> done)
      && (StageOf(jar, id).QuizPending? <==> !done && Lookup(jar, Key(id, VideoCompleted)) == Some("true"))
      && (StageOf(jar, id).VideoPending? <==> !done && Lookup(jar, Key(id, VideoCompleted)) != Some("true"))
  {
  }

  /**
   * Submit, then reload: the material comes back completed with the answers
   * submitted, the reload shows the same results submit showed, and the score
   * it rewrites is the one already stored.
   */
  lemma SubmitThenReload(jar: Jar, m: Material, answers: seq<Answer>, quizSubmitted: bool)
    ensures StageOf(SubmittedJar(jar, m, answers), m.id) == QuizDone(answers)
    ensures LoadView(SubmittedJar(jar, m, answers), m, quizSubmitted) == ResultsView(answers, m)
    ensures LoadedJar(SubmittedJar(jar, m, answers), m) == SubmittedJar(jar, m, answers)
  {
    var s := SubmittedJar(jar, m, answers);
    FieldsApart(m.id);
    assert Lookup(s, Key(m.id, QuizCompleted)) == Some("true");
    assert Lookup(s, Key(m.id, QuizAnswers)) == Some(Stringify(answers));
    ParseStringify(answers);
    assert SetCookie(s, Key(m.id, QuizScore), Score(answers, m)) == s;
  }

  /** A submit writes the three quiz cookies of its material and no other cookie. */
  lemma SubmitWrites(jar: Jar, m: Material, answers: seq<Answer>)
    ensures Lookup(SubmittedJar(jar, m, answers), Key(m.id, QuizAnswers)) == Some(Stringify(answers))
    ensures Lookup(SubmittedJar(jar, m, answers), Key(m.id, QuizCompleted)) == Some("true")
    ensures Lookup(SubmittedJar(jar, m, answers), Key(m.id, QuizScore)) == Some(Score(answers, m))
    ensures forall k :: k !in {Key(m.id, QuizAnswers), Key(m.id, QuizCompleted), Key(m.id, QuizScore)} ==>
      Lookup(SubmittedJar(jar, m, answers), k) == Lookup(jar, k)
  {
    FieldsApart(m.id);
  }

  /**
   * Retake deletes exactly the completion flag and the answers; the score
   * survives, so the next render of the form (with nothing submitted in that
   * session) shows it as the previous score, and the material goes back to
   * the quiz form when its video was watched.
   */
  lemma RetakeKeepsScore(jar: Jar, id: string)
    ensures Lookup(RetakenJar(jar, id), Key(id, QuizCompleted)) == None
    ensures Lookup(RetakenJar(jar, id), Key(id, QuizAnswers)) == None
    ensures forall k :: k !in {Key(id, QuizCompleted), Key(id, QuizAnswers)} ==>
      Lookup(RetakenJar(jar, id), k) == Lookup(jar, k)
    ensures StageOf(RetakenJar(jar, id), id) ==
      if Lookup(jar, Key(id, VideoCompleted)) == Some("true") then QuizPending else VideoPending
    ensures var previous := Lookup(jar, Key(id, QuizScore));
      QuizFormView(RetakenJar(jar, id), id, false) == QuizForm(if Truthy(previous) then previous else None)
  {
    FieldsApart(id);
  }

  /**
   * Submit, retake, reload with the video watched: the form comes back with
   * the score of the submitted answers as the previous score.
   */
  lemma SubmitRetakeReload(jar: Jar, m: Material, answers: seq<Answer>)
    requires Lookup(jar, Key(m.id, VideoCompleted)) == Some("true")
    ensures LoadView(RetakenJar(SubmittedJar(jar, m, answers), m.id), m, false) == QuizForm(Some(Score(answers, m)))
  {
    var s := SubmittedJar(jar, m, answers);
    SubmitWrites(jar, m, answers);
    FieldsApart(m.id);
    assert Lookup(s, Key(m.id, VideoCompleted)) == Some("true");
    RetakeKeepsScore(s, m.id);
    assert Score(answers, m) != "" by {
      if |m.questions| > 0 {
        assert |Decimal.NatToString(Percent(CorrectCount(answers, m.answerKey), |m.questions|))| >= 1;
      }
    }
  }

  /**
   * End of playback records the video of `id` as watched, so the material no
   * longer loads as video-only; recording it again changes nothing, and no
   * other cookie changes.
   */
  lemma EndedRecordsVideo(jar: Jar, id: string)
    ensures StageOf(EndedJar(jar, id), id) != VideoPending
    ensures EndedJar(EndedJar(jar, id), id) == EndedJar(jar, id)
    ensures forall k :: k != Key(id, VideoCompleted) ==> Lookup(EndedJar(jar, id), k) == Lookup(jar, k)
  {
  }

  /** Writing `last_material_id` leaves every material's progress cookies, and so its stage, as they were. */
  lemma SwitchKeepsProgress(jar: Jar, id: string, other: string)
    ensures forall f: Field :: Lookup(SetCookie(jar, LastMaterialKey, id), Key(other, f)) == Lookup(jar, Key(other, f))
    ensures StageOf(SetCookie(jar, LastMaterialKey, id), other) == StageOf(jar, other)
  {
    forall f: Field ensures Key(other, f) != LastMaterialKey {
      LastMaterialKeyIsNoMaterialKey(other, f);
    }
  }

  /**
   * Loading a material writes nothing but its score, leaves its stage as it
   * was, and loading it again writes the same.
   */
  lemma LoadIsStable(jar: Jar, m: Material)
    ensures forall k :: k != Key(m.id, QuizScore) ==> Lookup(LoadedJar(jar, m), k) == Lookup(jar, k)
    ensures StageOf(LoadedJar(jar, m), m.id) == StageOf(jar, m.id)
    ensures LoadedJar(LoadedJar(jar, m), m) == LoadedJar(jar, m)
  {
    FieldsApart(m.id);
    var l := LoadedJar(jar, m);
    assert Lookup(l, Key(m.id, QuizCompleted)) == Lookup(jar, Key(m.id, QuizCompleted));
    assert Lookup(l, Key(m.id, QuizAnswers)) == Lookup(jar, Key(m.id, QuizAnswers));
    assert Lookup(l, Key(m.id, VideoCompleted)) == Lookup(jar, Key(m.id, VideoCompleted));
    match StageOf(jar, m.id)
    case QuizDone(answers) =>
      assert SetCookie(l, Key(m.id, QuizScore), Score(answers, m)) == l;
    case _ =>
  }

  // ----- The session -----

  /**
   * The material the submit button is bound to after loading `m`:
   * showQuizSection binds it to `m` when the quiz form is shown, and nothing
   * else in loadMaterial touches the binding.
   */
  function SubmitTargetAfterLoad(jar: Jar, m: Material, target: Option<Material>): Option<Material>
  {
    if StageOf(jar, m.id).QuizPending? then Some(m) else target
  }

  /**
   * The material the retake button is bound to after loading `m`: loading
   * clears the results, and results rendered in full carry a retake button
   * bound to `m`.
   */
  function RetakeTargetAfterLoad(jar: Jar, m: Material): Option<Material>
  {
    match StageOf(jar, m.id)
    case QuizDone(answers) => if Review(answers, m).Some? then Some(m) else None
    case _ => None
  }

  /** `YT.PlayerState.ENDED` of the YouTube IFrame Player API. */
  const Ended: int := 0

  /** The module-level state of script.js (all but `player`) together with the cookie jar and the two button bindings. */
  class Session {
    var catalog: seq<Material>        // materials
    var store: Jar                    // document.cookie
    var currentId: Option<string>     // currentMaterialId
    var current: Option<Material>     // currentMaterial
    var videoCompleted: bool
    var quizSubmitted: bool
    var submitTarget: Option<Material>  // the material the submit button's onclick passes to submitQuiz; None while unbound
    var retakeTarget: Option<Material>  // the material the retake button passes to retakeQuiz; None while no results show one

    /** The current material, when there is one, is the catalogue's entry for the current id. */
    ghost predicate Valid()
      reads this
    {
      current.Some? ==> currentId == Some(current.value.id) && current.value in catalog
    }

    /** The state when the script starts, over the cookies the browser already holds. */
    constructor (jar: Jar)
      ensures Valid()
      ensures catalog == [] && store == jar && currentId == None && current == None
      ensures !videoCompleted && !quizSubmitted
      ensures submitTarget == None && retakeTarget == None
    {
      catalog := [];
      store := jar;
      currentId := None;
      current := None;
      videoCompleted := false;
      quizSubmitted := false;
      submitTarget := None;
      retakeTarget := None;
    }

    /**
     * loadMaterials, once `materials.json` has been fetched as `fetched`:
     * an empty catalogue stops; otherwise the initial material is chosen
     * from the URL id and the `last_material_id` cookie and loaded. The
     * script runs it once, at start, before any material is current.
     */
    method LoadMaterials(fetched: seq<Material>, urlId: Option<string>) returns (view: Option<View>)
      requires Valid() && current.None?
      modifies this
      ensures Valid()
      ensures catalog == fetched
      ensures fetched == [] ==>
        && view == None && store == old(store) && currentId == old(currentId) && current == old(current)
        && videoCompleted == old(videoCompleted) && quizSubmitted == old(quizSubmitted)
        && submitTarget == old(submitTarget) && retakeTarget == old(retakeTarget)
      ensures fetched != [] ==>
        var m := fetched[ResolveInitial(fetched, urlId, Lookup(old(store), LastMaterialKey)).value];
        && currentId == Some(m.id) && current == Some(m)
        && store == LoadedJar(old(store), m)
        && videoCompleted == (old(videoCompleted) || StageOf(old(store), m.id) != VideoPending)
        && quizSubmitted == (old(quizSubmitted) || StageOf(old(store), m.id).QuizDone?)
        && submitTarget == SubmitTargetAfterLoad(old(store), m, old(submitTarget))
        && retakeTarget == RetakeTargetAfterLoad(old(store), m)
        && view == Some(LoadView(old(store), m, old(quizSubmitted)))
    {
      catalog := fetched;
      if |catalog| == 0 {
        return None;
      }
      var lastMaterialId := Lookup(store, LastMaterialKey);
      var i := ResolveInitial(catalog, urlId, lastMaterialId).value;
      currentId := Some(catalog[i].id);
      current := Some(catalog[i]);
      var v := LoadMaterial(catalog[i]);
      view := Some(v);
    }

    /**
     * loadMaterial followed by the player's ready callback: clear the
     * results, read the three facts, then show the results, the quiz form or
     * the video alone.
     */
    method LoadMaterial(m: Material) returns (view: View)
      modifies this
      ensures store == LoadedJar(old(store), m)
      ensures videoCompleted == (old(videoCompleted) || StageOf(old(store), m.id) != VideoPending)
      ensures quizSubmitted == (old(quizSubmitted) || StageOf(old(store), m.id).QuizDone?)
      ensures submitTarget == SubmitTargetAfterLoad(old(store), m, old(submitTarget))
      ensures retakeTarget == RetakeTargetAfterLoad(old(store), m)
      ensures view == LoadView(old(store), m, old(quizSubmitted))
      ensures catalog == old(catalog) && currentId == old(currentId) && current == old(current)
    {
      var videoWatched := Lookup(store, Key(m.id, VideoCompleted)) == Some("true");
      var quizCompleted := Lookup(store, Key(m.id, QuizCompleted)) == Some("true");
      var savedAnswers := Lookup(store, Key(m.id, QuizAnswers));
      retakeTarget := None;
      if quizCompleted && Truthy(savedAnswers) {
        videoCompleted := true;
        match ParseAnswers(savedAnswers.value) {
          case Some(userAnswers) =>
            view := DisplayResults(userAnswers, m);
          case None =>
            // the parse error is only logged: the form stays hidden and no results appear
            view := ResultsUnavailable;
        }
      } else if videoWatched {
        videoCompleted := true;
        view := QuizFormView(store, m.id, quizSubmitted);
        submitTarget := Some(m);
      } else {
        view := VideoOnly;
      }
    }

    /**
     * onPlayerStateChange: only an ENDED event while the video is not yet
     * completed records it and shows the quiz form, binding the submit
     * button to the current material; every other event, and every later
     * ENDED event, changes nothing. Events come from the player loadMaterial
     * created, so a material is current.
     */
    method OnPlayerStateChange(state: int) returns (view: Option<View>)
      requires Valid() && current.Some?
      modifies this
      ensures Valid()
      ensures catalog == old(catalog) && currentId == old(currentId) && current == old(current)
      ensures state == Ended && !old(videoCompleted) ==>
        && videoCompleted
        && store == EndedJar(old(store), current.value.id)
        && submitTarget == current
        && view == Some(QuizFormView(store, current.value.id, quizSubmitted))
      ensures !(state == Ended && !old(videoCompleted)) ==>
        && store == old(store) && videoCompleted == old(videoCompleted)
        && submitTarget == old(submitTarget) && view == None
      ensures quizSubmitted == old(quizSubmitted) && retakeTarget == old(retakeTarget)
    {
      if state == Ended && !videoCompleted {
        videoCompleted := true;
        var materialId := currentId.value;
        store := SetCookie(store, Key(materialId, VideoCompleted), "true");
        view := Some(QuizFormView(store, current.value.id, quizSubmitted));
        submitTarget := current;
      } else {
        view := None;
      }
    }

    /**
     * displayResults: count, round and store the score, mark the quiz as
     * submitted in this session, then render the review, whose retake
     * button is bound to `m`. When the review throws, the results and
     * their retake button are left as they were.
     */
    method DisplayResults(userAnswers: seq<Answer>, m: Material) returns (view: View)
      modifies this
      ensures store == WithScore(old(store), m, userAnswers)
      ensures quizSubmitted
      ensures retakeTarget == if Review(userAnswers, m).Some? then Some(m) else old(retakeTarget)
      ensures view == ResultsView(userAnswers, m)
      ensures catalog == old(catalog) && currentId == old(currentId) && current == old(current)
      ensures videoCompleted == old(videoCompleted) && submitTarget == old(submitTarget)
    {
      var correctCount := CountCorrect(userAnswers, m.answerKey);
      var score := ScoreText(correctCount, |m.questions|);
      store := SetCookie(store, Key(m.id, QuizScore), score);
      quizSubmitted := true;
      match Review(userAnswers, m) {
        case Some(items) =>
          view := Results(score, items);
          retakeTarget := Some(m);
        case None =>
          view := ResultsUnavailable;
      }
    }

    /**
     * A press of the submit button: submitQuiz for the material the button
     * is bound to, where `checked` maps each question's index to the letter
     * of its checked option. An unbound button does nothing. An unanswered
     * question blocks the submit with an alert and changes nothing;
     * otherwise the answers, the completion flag and the score are stored.
     */
    method SubmitQuiz(checked: map<nat, Letter>) returns (view: Option<View>)
      modifies this
      ensures submitTarget == old(submitTarget)
      ensures old(submitTarget).None? || !AllAnswered(|old(submitTarget).value.questions|, checked) ==>
        && store == old(store) && quizSubmitted == old(quizSubmitted)
        && retakeTarget == old(retakeTarget) && view == None
      ensures old(submitTarget).Some? && AllAnswered(|old(submitTarget).value.questions|, checked) ==>
        var m := old(submitTarget).value;
        var answers := Collected(|m.questions|, checked);
        && store == SubmittedJar(old(store), m, answers) && quizSubmitted
        && retakeTarget == (if Review(answers, m).Some? then Some(m) else old(retakeTarget))
        && view == Some(ResultsView(answers, m))
      ensures catalog == old(catalog) && currentId == old(currentId) && current == old(current)
      ensures videoCompleted == old(videoCompleted)
    {
      if submitTarget.None? {
        return None;
      }
      var m := submitTarget.value;
      var userAnswers, allAnswered := CollectAnswers(m.questions, checked);
      if !allAnswered {
        return None;
      }
      store := SetCookie(store, Key(m.id, QuizAnswers), Stringify(userAnswers));
      store := SetCookie(store, Key(m.id, QuizCompleted), "true");
      var v := DisplayResults(userAnswers, m);
      view := Some(v);
    }

    /**
     * A press of the retake button: retakeQuiz for the material the button
     * is bound to. It deletes the completion flag and the answers (the score
     * stays), clears the results, shows the empty form without the banner
     * and clears `quizSubmitted`. The submit button keeps its binding.
     */
    method RetakeQuiz() returns (view: Option<View>)
      modifies this
      ensures old(retakeTarget).None? ==>
        store == old(store) && quizSubmitted == old(quizSubmitted) && view == None
      ensures old(retakeTarget).Some? ==>
        && store == RetakenJar(old(store), old(retakeTarget).value.id)
        && !quizSubmitted && view == Some(QuizForm(None))
      ensures retakeTarget == None && submitTarget == old(submitTarget)
      ensures catalog == old(catalog) && currentId == old(currentId) && current == old(current)
      ensures videoCompleted == old(videoCompleted)
    {
      if retakeTarget.None? {
        return None;
      }
      var m := retakeTarget.value;
      store := DeleteCookie(store, Key(m.id, QuizCompleted));
      store := DeleteCookie(store, Key(m.id, QuizAnswers));
      retakeTarget := None;
      quizSubmitted := false;
      view := Some(QuizForm(None));
    }

    /**
     * retakeQuiz as evidently intended: as RetakeQuiz, and the submit
     * button is bound to the material being retaken, as showQuizSection
     * would bind it.
     */
    method RetakeQuizRebinding() returns (view: Option<View>)
      modifies this
      ensures old(retakeTarget).None? ==>
        store == old(store) && quizSubmitted == old(quizSubmitted) && submitTarget == old(submitTarget) && view == None
      ensures old(retakeTarget).Some? ==>
        && store == RetakenJar(old(store), old(retakeTarget).value.id)
        && !quizSubmitted && view == Some(QuizForm(None))
        && submitTarget == old(retakeTarget)
      ensures retakeTarget == None
      ensures catalog == old(catalog) && currentId == old(currentId) && current == old(current)
      ensures videoCompleted == old(videoCompleted)
    {
      var target := retakeTarget;
      view := RetakeQuiz();
      if target.Some? {
        submitTarget := target;
      }
    }

    /**
     * switchMaterial: the current id changes nothing; another id becomes
     * current, is remembered in `last_material_id`, resets both session
     * flags and, when a material carries it, is loaded.
     */
    method SwitchMaterial(id: string) returns (view: Option<View>)
      requires Valid()
      modifies this
      ensures Valid()
      ensures catalog == old(catalog)
      ensures old(currentId) == Some(id) ==>
        && store == old(store) && currentId == old(currentId) && current == old(current)
        && videoCompleted == old(videoCompleted) && quizSubmitted == old(quizSubmitted)
        && submitTarget == old(submitTarget) && retakeTarget == old(retakeTarget) && view == None
      ensures old(currentId) != Some(id) ==>
        var switched := SetCookie(old(store), LastMaterialKey, id);
        && currentId == Some(id) && current == Find(catalog, id)
        && (current.None? ==>
              && store == switched && !videoCompleted && !quizSubmitted
              && submitTarget == old(submitTarget) && retakeTarget == old(retakeTarget) && view == None)
        && (current.Some? ==>
              && store == LoadedJar(switched, current.value)
              && videoCompleted == (StageOf(switched, id) != VideoPending)
              && quizSubmitted == StageOf(switched, id).QuizDone?
              && submitTarget == SubmitTargetAfterLoad(switched, current.value, old(submitTarget))
              && retakeTarget == RetakeTargetAfterLoad(switched, current.value)
              && view == Some(LoadView(switched, current.value, false)))
    {
      if currentId == Some(id) {
        // only the sidebar closes
        return None;
      }
      currentId := Some(id);
      current := Find(catalog, id);
      store := SetCookie(store, LastMaterialKey, id);
      videoCompleted := false;
      quizSubmitted := false;
      if current.Some? {
        var v := LoadMaterial(current.value);
        view := Some(v);
      } else {
        view := None;
      }
    }
  }

  /**
   * The submit button after a retake, as the program is written: with the
   * quiz form of `m0` shown, switch to `m1` whose quiz is completed, retake
   * it, answer and submit. The answers are scored for `m0` and stored under
   * `m0`'s cookies, while `m1`, the material on screen, is left without a
   * completed quiz.
   */
  method SubmitAfterRetakeGoesAstray(s: Session, m1: Material, checked: map<nat, Letter>)
    requires s.Valid() && s.current.Some? && s.submitTarget == s.current
    requires s.currentId != Some(m1.id) && Find(s.catalog, m1.id) == Some(m1)
    requires StageOf(s.store, m1.id).QuizDone? && Review(StageOf(s.store, m1.id).answers, m1).Some?
    requires AllAnswered(|s.current.value.questions|, checked)
    modifies s
    ensures s.currentId == Some(m1.id)
    ensures var m0 := old(s.current.value);
      && Lookup(s.store, Key(m0.id, QuizCompleted)) == Some("true")
      && Lookup(s.store, Key(m0.id, QuizAnswers)) == Some(Stringify(Collected(|m0.questions|, checked)))
    ensures Lookup(s.store, Key(m1.id, QuizCompleted)) == None
  {
    var m0 := s.current.value;
    SwitchKeepsProgress(s.store, m1.id, m1.id);
    var shown := s.SwitchMaterial(m1.id);
    // loading m1's results bound the retake button to m1; the submit button still names m0
    assert s.retakeTarget == Some(m1) && s.submitTarget == Some(m0);
    ghost var afterSwitch := s.store;
    var retaken := s.RetakeQuiz();
    ghost var afterRetake := s.store;
    RetakeKeepsScore(afterSwitch, m1.id);
    var submitted := s.SubmitQuiz(checked);
    SubmitWrites(afterRetake, m0, Collected(|m0.questions|, checked));
    forall f: Field ensures Key(m1.id, QuizCompleted) != Key(m0.id, f) {
      if Key(m1.id, QuizCompleted) == Key(m0.id, f) {
        KeyInjective(m1.id, QuizCompleted, m0.id, f);
      }
    }
  }

  /**
   * The same presses with the retake handler that rebinds the submit
   * button: the answers are scored for `m1` and stored under its cookies,
   * and no progress cookie of `m0` changes.
   */
  method SubmitAfterRebindingRetake(s: Session, m1: Material, checked: map<nat, Letter>)
    requires s.Valid() && s.current.Some?
    requires s.currentId != Some(m1.id) && Find(s.catalog, m1.id) == Some(m1)
    requires StageOf(s.store, m1.id).QuizDone? && Review(StageOf(s.store, m1.id).answers, m1).Some?
    requires AllAnswered(|m1.questions|, checked)
    modifies s
    ensures s.currentId == Some(m1.id) && s.submitTarget == Some(m1)
    ensures Lookup(s.store, Key(m1.id, QuizCompleted)) == Some("true")
    ensures Lookup(s.store, Key(m1.id, QuizAnswers)) == Some(Stringify(Collected(|m1.questions|, checked)))
    ensures forall f: Field :: Lookup(s.store, Key(old(s.current.value.id), f)) == Lookup(old(s.store), Key(old(s.current.value.id), f))
  {
    var m0 := s.current.value;
    ghost var before := s.store;
    SwitchKeepsProgress(s.store, m1.id, m1.id);
    SwitchKeepsProgress(s.store, m1.id, m0.id);
    var shown := s.SwitchMaterial(m1.id);
    ghost var afterSwitch := s.store;
    LoadIsStable(SetCookie(before, LastMaterialKey, m1.id), m1);
    var retaken := s.RetakeQuizRebinding();
    ghost var afterRetake := s.store;
    RetakeKeepsScore(afterSwitch, m1.id);
    var submitted := s.SubmitQuiz(checked);
    SubmitWrites(afterRetake, m1, Collected(|m1.questions|, checked));
    forall f: Field
      ensures Lookup(s.store, Key(m0.id, f)) == Lookup(before, Key(m0.id, f))
    {
      forall g: Field ensures Key(m0.id, f) != Key(m1.id, g) {
        if Key(m0.id, f) == Key(m1.id, g) {
          KeyInjective(m0.id, f, m1.id, g);
        }
      }
    }
  }
}
