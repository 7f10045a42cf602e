/**
 * The one-shot migration of the legacy relational data into the document store
 * (src/db/migrations/sqliteToDexie.ts). A legacy study plan becomes a journey with one stage per
 * subject and one task per topic and subtopic; the user's progress becomes the hero profile; a
 * study session bound to a task becomes that task. A `localStorage` flag makes it run once.
 *
 * Legacy columns are untyped in the source; a missing column is modelled as `0`, `""` or `None`,
 * which JavaScript's `||` treats the same way as the falsy value.
 */
module SqliteToDexie {
  import opened Wrappers
  import opened JsText
  import opened DexieStore
  import Browser

  const MigrationKey := "sqlite_to_dexie_migration_completed"
  const MigratedPlanTitle := "Plano Migrado"
  const UnknownRef := "unknown"
  const DefaultSessionTitle := "Sessão de Estudo"

  /** JavaScript's `x || fallback` on a number. */
  function OrNumber(x: int, fallback: int): int
  {
    if x != 0 then x else fallback
  }

  /** JavaScript's `x || fallback` on a string. */
  function OrText(x: string, fallback: string): string
  {
    if x != "" then x else fallback
  }

  /** The `focus_areas` column: absent, JSON text that parses, or text on which `JSON.parse` throws. */
  datatype FocusAreasColumn = NoFocusAreas | FocusAreasJson(areas: seq<string>) | MalformedJson

  datatype LegacyPlan = LegacyPlan(
    id: string, name: string, description: string, examDate: Option<Timestamp>,
    totalHours: int, focusAreas: FocusAreasColumn, createdAt: Timestamp, updatedAt: Timestamp)

  datatype LegacySubject = LegacySubject(
    id: string, planId: string, name: string, description: string,
    priority: int, estimatedTime: int, createdAt: Timestamp, updatedAt: Timestamp)

  datatype LegacyTopic = LegacyTopic(
    id: string, subjectId: string, name: string, description: string,
    priority: int, estimatedTime: int, createdAt: Timestamp, updatedAt: Timestamp)

  datatype LegacySubtopic = LegacySubtopic(
    id: string, topicId: string, name: string, description: string,
    priority: int, estimatedTime: int, createdAt: Timestamp, updatedAt: Timestamp)

  datatype LegacyProgress = LegacyProgress(
    heroName: string, totalXp: int, currentLevel: int, xpForNextLevel: int,
    createdAt: Timestamp, updatedAt: Timestamp)

  datatype LegacySession = LegacySession(
    taskId: string, stageId: string, journeyId: string, topic: string, notes: string,
    completed: bool, endTime: Option<Timestamp>, plannedDuration: int, actualDuration: int,
    startTime: Option<Timestamp>, createdAt: Timestamp, updatedAt: Timestamp)

  /** The exported legacy tables. */
  datatype LegacyData = LegacyData(
    plans: seq<LegacyPlan>,
    progress: seq<LegacyProgress>,
    sessions: seq<LegacySession>,
    subjects: seq<LegacySubject>,
    topics: seq<LegacyTopic>,
    subtopics: seq<LegacySubtopic>)

  /** The export the runner works on: every table is hard-coded empty. */
  const HardCodedExport := LegacyData([], [], [], [], [], [])

  // ---------------------------------------------------------------------------------------------
  // Plan -> journey conversion

  function SubjectsOf(subjects: seq<LegacySubject>, planId: string): (r: seq<LegacySubject>)
    ensures forall x :: x in r <==> x in subjects && x.planId == planId
  {
    if subjects == [] then []
    else
      var rest := SubjectsOf(subjects[1..], planId);
      assert forall x :: x in subjects <==> x == subjects[0] || x in subjects[1..];
      if subjects[0].planId == planId then [subjects[0]] + rest else rest
  }

  function TopicsOf(topics: seq<LegacyTopic>, subjectId: string): (r: seq<LegacyTopic>)
    ensures forall x :: x in r <==> x in topics && x.subjectId == subjectId
  {
    if topics == [] then []
    else
      var rest := TopicsOf(topics[1..], subjectId);
      assert forall x :: x in topics <==> x == topics[0] || x in topics[1..];
      if topics[0].subjectId == subjectId then [topics[0]] + rest else rest
  }

  function SubtopicsOf(subtopics: seq<LegacySubtopic>, topicId: string): (r: seq<LegacySubtopic>)
    ensures forall x :: x in r <==> x in subtopics && x.topicId == topicId
  {
    if subtopics == [] then []
    else
      var rest := SubtopicsOf(subtopics[1..], topicId);
      assert forall x :: x in subtopics <==> x == subtopics[0] || x in subtopics[1..];
      if subtopics[0].topicId == topicId then [subtopics[0]] + rest else rest
  }

  /** `stage--{plan.id}--{index}`. */
  function StageIdFor(planId: string, index: nat): string
  {
    "stage--" + planId + "--" + NatToString(index)
  }

  /** `task--stage--{subject.id}--{item.id}`. */
  function ItemTaskId(subjectId: string, itemId: string): string
  {
    "task--stage--" + subjectId + "--" + itemId
  }

  /** The task made for a topic. */
  function TopicTask(plan: LegacyPlan, subject: LegacySubject, index: nat, topic: LegacyTopic, now: Timestamp): Task
  {
    Task(ItemTaskId(subject.id, topic.id), StageIdFor(plan.id, index), plan.id, topic.name,
         Some(topic.description), false, None, OrNumber(topic.priority, 1),
         OrNumber(topic.estimatedTime, 60) * 60, 0, None, None,
         OrNumber(topic.createdAt, now), OrNumber(topic.updatedAt, now))
  }

  /** The task made for a subtopic of `topic`. */
  function SubtopicTask(plan: LegacyPlan, subject: LegacySubject, index: nat, topic: LegacyTopic,
                        subtopic: LegacySubtopic, now: Timestamp): Task
  {
    Task(ItemTaskId(subject.id, subtopic.id), StageIdFor(plan.id, index), plan.id, topic.name + " - " + subtopic.name,
         Some(subtopic.description), false, None, OrNumber(subtopic.priority, 1),
         OrNumber(subtopic.estimatedTime, 30) * 60, 0, None, None,
         OrNumber(subtopic.createdAt, now), OrNumber(subtopic.updatedAt, now))
  }

  function SubtopicTasks(plan: LegacyPlan, subject: LegacySubject, index: nat, topic: LegacyTopic,
                         subs: seq<LegacySubtopic>, now: Timestamp): (r: seq<Task>)
    ensures |r| == |subs|
    ensures forall i :: 0 <= i < |subs| ==> r[i] == SubtopicTask(plan, subject, index, topic, subs[i], now)
  {
    seq(|subs|, i requires 0 <= i < |subs| => SubtopicTask(plan, subject, index, topic, subs[i], now))
  }

  /** The tasks pushed for a subject's topics: each topic's task, then its subtopics' tasks. */
  function TopicTasks(plan: LegacyPlan, subject: LegacySubject, index: nat, topics: seq<LegacyTopic>,
                      subtopics: seq<LegacySubtopic>, now: Timestamp): seq<Task>
  {
    if topics == [] then []
    else
      [TopicTask(plan, subject, index, topics[0], now)]
        + SubtopicTasks(plan, subject, index, topics[0], SubtopicsOf(subtopics, topics[0].id), now)
        + TopicTasks(plan, subject, index, topics[1..], subtopics, now)
  }

  /** The stage made for the subject at `index`. */
  function ConvertedStage(plan: LegacyPlan, subject: LegacySubject, index: nat, data: LegacyData, now: Timestamp): Stage
  {
    Stage(StageIdFor(plan.id, index), subject.name, Some(subject.description), OrNumber(subject.priority, 1),
          OrNumber(subject.estimatedTime, 10), 0, NotStarted, index,
          TopicTasks(plan, subject, index, TopicsOf(data.topics, subject.id), data.subtopics, now),
          OrNumber(subject.createdAt, now), OrNumber(subject.updatedAt, now))
  }

  function ConvertedStages(plan: LegacyPlan, data: LegacyData, now: Timestamp): (r: seq<Stage>)
    ensures |r| == |SubjectsOf(data.subjects, plan.id)|
  {
    var subjects := SubjectsOf(data.subjects, plan.id);
    seq(|subjects|, i requires 0 <= i < |subjects| => ConvertedStage(plan, subjects[i], i, data, now))
  }

  /**
   * `migrateStudyPlanToJourney` up to the `add`: the journey for a plan, or `None` when
   * `JSON.parse` of its focus areas throws (the error is caught and the plan skipped).
   */
  function ConvertedJourney(plan: LegacyPlan, data: LegacyData, now: Timestamp): Option<Journey>
  {
    if plan.focusAreas.MalformedJson? then None
    else
      Some(Journey(Some(plan.id), OrText(plan.name, MigratedPlanTitle), Some(plan.description), plan.examDate,
                   plan.totalHours, 0, if plan.focusAreas.FocusAreasJson? then plan.focusAreas.areas else [],
                   JourneyActive, ConvertedStages(plan, data, now),
                   OrNumber(plan.createdAt, now), OrNumber(plan.updatedAt, now)))
  }

  /** Stages of one plan get distinct ids. */
  lemma StageIdsDistinct(planId: string, i: nat, j: nat)
    requires StageIdFor(planId, i) == StageIdFor(planId, j)
    ensures i == j
  {
    var prefix := "stage--" + planId + "--";
    assert StageIdFor(planId, i) == prefix + NatToString(i);
    assert StageIdFor(planId, j) == prefix + NatToString(j);
    assert NatToString(i) == (prefix + NatToString(i))[|prefix|..];
    assert NatToString(j) == (prefix + NatToString(j))[|prefix|..];
    NatToStringInjective(i, j);
  }

  /**
   * A plan converts unless its focus areas fail to parse; the journey keeps the plan's id as its
   * legacy id, starts active with no hours done, and has one not-started stage per subject of
   * the plan, in order, stage `i` with id `stage--{plan.id}--{i}`, order `i` and the subject's name.
   */
  lemma ConvertedJourneyShape(plan: LegacyPlan, data: LegacyData, now: Timestamp)
    ensures ConvertedJourney(plan, data, now).Some? <==> !plan.focusAreas.MalformedJson?
    ensures ConvertedJourney(plan, data, now).Some? ==>
      var j := ConvertedJourney(plan, data, now).value;
      var subjects := SubjectsOf(data.subjects, plan.id);
      && j.legacyId == Some(plan.id)
      && j.title != ""
      && (plan.name != "" ==> j.title == plan.name)
      && j.status == JourneyActive && j.completedHours == 0
      && |j.stages| == |subjects|
      && (forall i :: 0 <= i < |j.stages| ==>
            && j.stages[i].id == StageIdFor(plan.id, i)
            && j.stages[i].order == i
            && j.stages[i].title == subjects[i].name
            && j.stages[i].status == NotStarted
            && j.stages[i].completedHours == 0)
  {
  }

  /** The task was made for one of the topics, or for a subtopic of one of them. */
  ghost predicate MadeFromItem(task: Task, plan: LegacyPlan, subject: LegacySubject, index: nat,
                               topics: seq<LegacyTopic>, subtopics: seq<LegacySubtopic>, now: Timestamp)
  {
    || (exists t :: t in topics && task == TopicTask(plan, subject, index, t, now))
    || (exists t, st ::
          t in topics && st in subtopics && st.topicId == t.id && task == SubtopicTask(plan, subject, index, t, st, now))
  }

  /** Every task of a stage comes from one of its topics or subtopics. */
  lemma {:induction false} TopicTasksSound(plan: LegacyPlan, subject: LegacySubject, index: nat,
                                           topics: seq<LegacyTopic>, subtopics: seq<LegacySubtopic>, now: Timestamp)
    ensures forall task :: task in TopicTasks(plan, subject, index, topics, subtopics, now) ==>
              MadeFromItem(task, plan, subject, index, topics, subtopics, now)
  {
    if topics != [] {
      var t := topics[0];
      var subs := SubtopicTasks(plan, subject, index, t, SubtopicsOf(subtopics, t.id), now);
      var rest := TopicTasks(plan, subject, index, topics[1..], subtopics, now);
      TopicTasksSound(plan, subject, index, topics[1..], subtopics, now);
      forall task | task in TopicTasks(plan, subject, index, topics, subtopics, now)
        ensures MadeFromItem(task, plan, subject, index, topics, subtopics, now)
      {
        assert task in [TopicTask(plan, subject, index, t, now)] + subs || task in rest;
        if task in subs {
          var k :| 0 <= k < |subs| && subs[k] == task;
          assert SubtopicsOf(subtopics, t.id)[k] in SubtopicsOf(subtopics, t.id);
        } else if task in rest {
          assert MadeFromItem(task, plan, subject, index, topics[1..], subtopics, now);
          assert forall x :: x in topics[1..] ==> x in topics;
        }
      }
    }
  }

  /** Every topic of a stage, and every subtopic of those topics, has its task in the stage. */
  lemma {:induction false} TopicTasksComplete(plan: LegacyPlan, subject: LegacySubject, index: nat,
                                              topics: seq<LegacyTopic>, subtopics: seq<LegacySubtopic>, now: Timestamp)
    ensures forall t :: t in topics ==> TopicTask(plan, subject, index, t, now) in TopicTasks(plan, subject, index, topics, subtopics, now)
    ensures forall t, st :: t in topics && st in subtopics && st.topicId == t.id ==>
              SubtopicTask(plan, subject, index, t, st, now) in TopicTasks(plan, subject, index, topics, subtopics, now)
  {
    if topics != [] {
      var t0 := topics[0];
      var subs := SubtopicsOf(subtopics, t0.id);
      var r := TopicTasks(plan, subject, index, topics, subtopics, now);
      var rest := TopicTasks(plan, subject, index, topics[1..], subtopics, now);
      var block := [TopicTask(plan, subject, index, t0, now)] + SubtopicTasks(plan, subject, index, t0, subs, now);
      assert r == block + rest;
      TopicTasksComplete(plan, subject, index, topics[1..], subtopics, now);
      forall t | t in topics ensures TopicTask(plan, subject, index, t, now) in r {
        if t != t0 {
          assert t in topics[1..];
        } else {
          assert block[0] == TopicTask(plan, subject, index, t, now);
        }
      }
      forall t, st | t in topics && st in subtopics && st.topicId == t.id
        ensures SubtopicTask(plan, subject, index, t, st, now) in r
      {
        if t != t0 {
          assert t in topics[1..];
        } else {
          var k :| 0 <= k < |subs| && subs[k] == st;
          assert block[1 + k] == SubtopicTask(plan, subject, index, t, st, now);
        }
      }
    }
  }

  /**
   * The task belongs to stage `index`: stage id `stage--{plan.id}--{index}`, journey id `plan.id`,
   * id `task--stage--{subject.id}--{item id}`, not completed, nothing spent, and an estimate in
   * whole hours (a topic without one gets 60 hours, a subtopic 30).
   */
  ghost predicate BelongsToStage(task: Task, plan: LegacyPlan, subject: LegacySubject, index: nat,
                                 topics: seq<LegacyTopic>, subtopics: seq<LegacySubtopic>)
  {
    && task.stageId == StageIdFor(plan.id, index)
    && task.journeyId == plan.id
    && !task.completed && task.actualMinutes == 0
    && task.estimatedMinutes % 60 == 0
    && ((exists t :: t in topics && task.id == ItemTaskId(subject.id, t.id) &&
           (t.estimatedTime == 0 ==> task.estimatedMinutes == 3600)) ||
        (exists st :: st in subtopics && task.id == ItemTaskId(subject.id, st.id) &&
           (st.estimatedTime == 0 ==> task.estimatedMinutes == 1800)))
  }

  lemma ItemTaskBelongsToStage(task: Task, plan: LegacyPlan, subject: LegacySubject, index: nat,
                               topics: seq<LegacyTopic>, subtopics: seq<LegacySubtopic>, now: Timestamp)
    requires MadeFromItem(task, plan, subject, index, topics, subtopics, now)
    ensures BelongsToStage(task, plan, subject, index, topics, subtopics)
  {
    if exists t :: t in topics && task == TopicTask(plan, subject, index, t, now) {
      var t :| t in topics && task == TopicTask(plan, subject, index, t, now);
      assert task.estimatedMinutes == OrNumber(t.estimatedTime, 60) * 60;
    } else {
      var t, st :| t in topics && st in subtopics && st.topicId == t.id && task == SubtopicTask(plan, subject, index, t, st, now);
      assert task.estimatedMinutes == OrNumber(st.estimatedTime, 30) * 60;
    }
  }

  /** Every task of stage `index` belongs to it. */
  lemma StageTasksBelongToStage(plan: LegacyPlan, subject: LegacySubject, index: nat,
                                topics: seq<LegacyTopic>, subtopics: seq<LegacySubtopic>, now: Timestamp)
    ensures forall task :: task in TopicTasks(plan, subject, index, topics, subtopics, now) ==>
              BelongsToStage(task, plan, subject, index, topics, subtopics)
  {
    TopicTasksSound(plan, subject, index, topics, subtopics, now);
    forall task | task in TopicTasks(plan, subject, index, topics, subtopics, now)
      ensures BelongsToStage(task, plan, subject, index, topics, subtopics)
    {
      ItemTaskBelongsToStage(task, plan, subject, index, topics, subtopics, now);
    }
  }

  // ---------------------------------------------------------------------------------------------
  // Writing the converted records

  /**
   * The journeys store and its key generator after the plans, one at a time: a converted plan is
   * added under the generator's key; a plan whose conversion throws is skipped.
   */
  function JourneysAfterPlans(journeys: map<nat, Journey>, next: nat, plans: seq<LegacyPlan>,
                              data: LegacyData, now: Timestamp): (map<nat, Journey>, nat)
  {
    if plans == [] then (journeys, next)
    else
      var (js, n) := JourneysAfterPlans(journeys, next, plans[..|plans| - 1], data, now);
      match ConvertedJourney(plans[|plans| - 1], data, now)
      case None => (js, n)
      case Some(j) => (js[n := j], n + 1)
  }

  /** How many of the plans convert. */
  function ConvertibleCount(plans: seq<LegacyPlan>, data: LegacyData, now: Timestamp): nat
  {
    if plans == [] then 0
    else ConvertibleCount(plans[..|plans| - 1], data, now) + (if ConvertedJourney(plans[|plans| - 1], data, now).Some? then 1 else 0)
  }

  /**
   * Adding the plans keeps every existing journey and adds exactly one journey per plan that
   * converts, under fresh keys below the advanced generator.
   */
  lemma {:induction false} JourneysAfterPlansKeep(journeys: map<nat, Journey>, next: nat, plans: seq<LegacyPlan>,
                                                  data: LegacyData, now: Timestamp)
    requires forall k :: k in journeys ==> k < next
    ensures var (js, n) := JourneysAfterPlans(journeys, next, plans, data, now);
      && n == next + ConvertibleCount(plans, data, now)
      && (forall k :: k in js ==> k < n)
      && (forall k :: k in journeys ==> k in js && js[k] == journeys[k])
      && |js| == |journeys| + ConvertibleCount(plans, data, now)
  {
    if plans != [] {
      var pre := plans[..|plans| - 1];
      JourneysAfterPlansKeep(journeys, next, pre, data, now);
      var (js, n) := JourneysAfterPlans(journeys, next, pre, data, now);
      if ConvertedJourney(plans[|plans| - 1], data, now).Some? {
        var j := ConvertedJourney(plans[|plans| - 1], data, now).value;
        assert n !in js;
        assert js[n := j].Keys == js.Keys + {n};
      }
    }
  }

  /** Every plan that converts has its journey stored: a plan that fails does not stop the others. */
  lemma {:induction false} JourneysAfterPlansComplete(journeys: map<nat, Journey>, next: nat, plans: seq<LegacyPlan>,
                                                      data: LegacyData, now: Timestamp)
    requires forall k :: k in journeys ==> k < next
    ensures forall i :: 0 <= i < |plans| && ConvertedJourney(plans[i], data, now).Some? ==>
              ConvertedJourney(plans[i], data, now).value in JourneysAfterPlans(journeys, next, plans, data, now).0.Values
  {
    if plans != [] {
      var pre := plans[..|plans| - 1];
      JourneysAfterPlansComplete(journeys, next, pre, data, now);
      JourneysAfterPlansKeep(journeys, next, pre, data, now);
      var (js, n) := JourneysAfterPlans(journeys, next, pre, data, now);
      var r := JourneysAfterPlans(journeys, next, plans, data, now).0;
      var c := ConvertedJourney(plans[|plans| - 1], data, now);
      assert r == if c.Some? then js[n := c.value] else js;
      assert n !in js;
      forall i | 0 <= i < |plans| && ConvertedJourney(plans[i], data, now).Some?
        ensures ConvertedJourney(plans[i], data, now).value in r.Values
      {
        if i < |pre| {
          assert plans[i] == pre[i];
          var v := ConvertedJourney(plans[i], data, now).value;
          var k :| k in js && js[k] == v;
          assert r[k] == v;
        } else {
          assert r[n] == c.value;
        }
      }
    }
  }

  /** `migrateStudyPlanToJourney`: the converted journey is added under the generator's key. */
  method MigrateStudyPlan(db: HeroTaskDatabase, plan: LegacyPlan, data: LegacyData, now: Timestamp)
    modifies db`journeys, db`keyGen
    ensures (db.journeys, db.keyGen.journeys) == JourneysAfterPlans(old(db.journeys), old(db.keyGen.journeys), [plan], data, now)
    ensures db.keyGen == old(db.keyGen).(journeys := db.keyGen.journeys)
  {
    var journey := ConvertedJourney(plan, data, now);
    if journey.Some? {
      var key := db.keyGen.journeys;
      db.journeys := db.journeys[key := journey.value];
      db.keyGen := db.keyGen.(journeys := key + 1);
    }
  }

  /** The profile made from the legacy progress row. */
  function MigratedProfile(progress: LegacyProgress, now: Timestamp): HeroProfile
  {
    HeroProfile(OrText(progress.heroName, DefaultHeroName), OrNumber(progress.totalXp, 0), OrNumber(progress.currentLevel, 1),
                OrNumber(progress.xpForNextLevel, 100), None, None, OrNumber(progress.createdAt, now), OrNumber(progress.updatedAt, now))
  }

  /**
   * `migrateUserProgressToHeroProfile`: nothing when profile 1 exists, otherwise the profile is
   * added under the generator's key.
   */
  method MigrateUserProgress(db: HeroTaskDatabase, progress: LegacyProgress, now: Timestamp)
    modifies db`heroProfile, db`keyGen
    ensures ProfileKey in old(db.heroProfile) ==> db.heroProfile == old(db.heroProfile) && db.keyGen == old(db.keyGen)
    ensures ProfileKey !in old(db.heroProfile) ==>
      && db.heroProfile == old(db.heroProfile)[old(db.keyGen.heroProfile) := MigratedProfile(progress, now)]
      && db.keyGen == old(db.keyGen).(heroProfile := old(db.keyGen.heroProfile) + 1)
  {
    if ProfileKey in db.heroProfile {
      return;
    }
    var key := db.keyGen.heroProfile;
    db.heroProfile := db.heroProfile[key := MigratedProfile(progress, now)];
    db.keyGen := db.keyGen.(heroProfile := key + 1);
  }

  /** The task made from a study session bound to a task. */
  function SessionTask(session: LegacySession, now: Timestamp): (t: Task)
    ensures t.id == session.taskId
  {
    Task(session.taskId, OrText(session.stageId, UnknownRef), OrText(session.journeyId, UnknownRef),
         OrText(session.topic, DefaultSessionTitle), Some(session.notes), session.completed, session.endTime, 1,
         OrNumber(session.plannedDuration, 25), OrNumber(session.actualDuration, 0), session.startTime, None,
         OrNumber(session.createdAt, now), OrNumber(session.updatedAt, now))
  }

  /** The tasks store after the sessions, one at a time. */
  function TasksAfterSessions(tasks: map<string, Task>, sessions: seq<LegacySession>, now: Timestamp): map<string, Task>
  {
    if sessions == [] then tasks
    else
      var before := TasksAfterSessions(tasks, sessions[..|sessions| - 1], now);
      var s := sessions[|sessions| - 1];
      if s.taskId == "" || s.taskId in before then before else before[s.taskId := SessionTask(s, now)]
  }

  /** Some session names task `id`. */
  ghost predicate NamedBySession(sessions: seq<LegacySession>, id: string)
  {
    exists i :: 0 <= i < |sessions| && sessions[i].taskId == id
  }

  /** The first session that names task `id`. */
  ghost predicate FirstSessionFor(sessions: seq<LegacySession>, id: string, i: int)
  {
    0 <= i < |sessions| && sessions[i].taskId == id && forall j :: 0 <= j < i ==> sessions[j].taskId != id
  }

  /**
   * Sessions never overwrite a task: existing tasks keep their record, and a task is added only
   * for a non-empty task id that some session names.
   */
  lemma {:induction false} SessionsNeverOverwrite(tasks: map<string, Task>, sessions: seq<LegacySession>, now: Timestamp)
    ensures var r := TasksAfterSessions(tasks, sessions, now);
      && (forall id :: id in r <==> id in tasks || (id != "" && NamedBySession(sessions, id)))
      && (forall id :: id in tasks ==> r[id] == tasks[id])
  {
    if sessions != [] {
      var pre := sessions[..|sessions| - 1];
      SessionsNeverOverwrite(tasks, pre, now);
      var r := TasksAfterSessions(tasks, sessions, now);
      forall id | NamedBySession(pre, id) ensures NamedBySession(sessions, id) {
        var i :| 0 <= i < |pre| && pre[i].taskId == id;
        assert sessions[i] == pre[i];
      }
      var before := TasksAfterSessions(tasks, pre, now);
      assert before.Keys <= r.Keys;
      forall id | id != "" && NamedBySession(sessions, id) ensures id in r {
        var i :| 0 <= i < |sessions| && sessions[i].taskId == id;
        if i < |pre| {
          assert pre[i] == sessions[i];
          assert NamedBySession(pre, id);
          assert id in before;
        } else {
          assert id == sessions[|sessions| - 1].taskId;
        }
      }
    }
  }

  /** Each task a session adds is made from the first session naming it. */
  lemma {:induction false} SessionTaskFromFirstSession(tasks: map<string, Task>, sessions: seq<LegacySession>, now: Timestamp)
    ensures var r := TasksAfterSessions(tasks, sessions, now);
      forall id :: id in r && id !in tasks ==>
        exists i :: FirstSessionFor(sessions, id, i) && r[id] == SessionTask(sessions[i], now)
  {
    if sessions != [] {
      var pre := sessions[..|sessions| - 1];
      var s := sessions[|sessions| - 1];
      SessionTaskFromFirstSession(tasks, pre, now);
      var before := TasksAfterSessions(tasks, pre, now);
      var r := TasksAfterSessions(tasks, sessions, now);
      forall id | id in r && id !in tasks
        ensures exists i :: FirstSessionFor(sessions, id, i) && r[id] == SessionTask(sessions[i], now)
      {
        if id in before {
          var i :| FirstSessionFor(pre, id, i) && before[id] == SessionTask(pre[i], now);
          assert sessions[i] == pre[i];
          assert forall j :: 0 <= j < i ==> sessions[j] == pre[j];
          assert FirstSessionFor(sessions, id, i);
        } else {
          assert id == s.taskId;
          forall j | 0 <= j < |sessions| - 1 ensures sessions[j].taskId != id {
            assert sessions[j] == pre[j];
            if sessions[j].taskId == id {
              SessionsNeverOverwrite(tasks, pre, now);
              assert NamedBySession(pre, id);
            }
          }
          assert FirstSessionFor(sessions, id, |sessions| - 1);
        }
      }
    }
  }

  /** Replaying the same sessions adds nothing more. */
  lemma SessionMigrationIdempotent(tasks: map<string, Task>, sessions: seq<LegacySession>, now: Timestamp)
    ensures TasksAfterSessions(TasksAfterSessions(tasks, sessions, now), sessions, now) == TasksAfterSessions(tasks, sessions, now)
  {
    var once := TasksAfterSessions(tasks, sessions, now);
    SessionsNeverOverwrite(tasks, sessions, now);
    SessionsNeverOverwrite(once, sessions, now);
  }

  /** `migrateStudySessionToTask`: adds the session's task unless it has no task id or the task exists. */
  method MigrateStudySession(db: HeroTaskDatabase, session: LegacySession, now: Timestamp)
    modifies db`tasks
    ensures db.tasks == TasksAfterSessions(old(db.tasks), [session], now)
  {
    if session.taskId == "" {
      return;
    }
    if session.taskId !in db.tasks {
      db.tasks := db.tasks[session.taskId := SessionTask(session, now)];
    }
  }

  /** The loop over the legacy plans. */
  method MigratePlans(db: HeroTaskDatabase, data: LegacyData, now: Timestamp)
    modifies db`journeys, db`keyGen
    ensures (db.journeys, db.keyGen.journeys) == JourneysAfterPlans(old(db.journeys), old(db.keyGen.journeys), data.plans, data, now)
    ensures db.keyGen == old(db.keyGen).(journeys := db.keyGen.journeys)
  {
    var i := 0;
    while i < |data.plans|
      invariant i <= |data.plans|
      invariant (db.journeys, db.keyGen.journeys) == JourneysAfterPlans(old(db.journeys), old(db.keyGen.journeys), data.plans[..i], data, now)
      invariant db.keyGen == old(db.keyGen).(journeys := db.keyGen.journeys)
    {
      assert data.plans[..i + 1][..i] == data.plans[..i];
      MigrateStudyPlan(db, data.plans[i], data, now);
      i := i + 1;
    }
    assert data.plans[..i] == data.plans;
  }

  /** The loop over the legacy sessions. */
  method MigrateSessions(db: HeroTaskDatabase, sessions: seq<LegacySession>, now: Timestamp)
    modifies db`tasks
    ensures db.tasks == TasksAfterSessions(old(db.tasks), sessions, now)
  {
    var i := 0;
    while i < |sessions|
      invariant i <= |sessions|
      invariant db.tasks == TasksAfterSessions(old(db.tasks), sessions[..i], now)
    {
      assert sessions[..i + 1][..i] == sessions[..i];
      MigrateStudySession(db, sessions[i], now);
      i := i + 1;
    }
    assert sessions[..i] == sessions;
  }

  /** The transaction body: plans, then the first progress row, then sessions. */
  method MigrateLegacyData(db: HeroTaskDatabase, data: LegacyData, now: Timestamp)
    modifies db`journeys, db`heroProfile, db`tasks, db`keyGen
    ensures (db.journeys, db.keyGen.journeys) == JourneysAfterPlans(old(db.journeys), old(db.keyGen.journeys), data.plans, data, now)
    ensures data.progress == [] || ProfileKey in old(db.heroProfile) ==>
      db.heroProfile == old(db.heroProfile) && db.keyGen.heroProfile == old(db.keyGen.heroProfile)
    ensures data.progress != [] && ProfileKey !in old(db.heroProfile) ==>
      && db.heroProfile == old(db.heroProfile)[old(db.keyGen.heroProfile) := MigratedProfile(data.progress[0], now)]
      && db.keyGen.heroProfile == old(db.keyGen.heroProfile) + 1
    ensures db.tasks == TasksAfterSessions(old(db.tasks), data.sessions, now)
    ensures db.keyGen == old(db.keyGen).(journeys := db.keyGen.journeys, heroProfile := db.keyGen.heroProfile)
  {
    MigratePlans(db, data, now);
    if data.progress != [] {
      MigrateUserProgress(db, data.progress[0], now);
    }
    MigrateSessions(db, data.sessions, now);
  }

  /** `shouldRunMigration`: the completion flag is not `'true'`. */
  function ShouldRunMigration(storage: Browser.LocalStorage): (r: bool)
    reads storage
    ensures r <==> !(MigrationKey in storage.items && storage.items[MigrationKey] == "true")
  {
    storage.GetItem(MigrationKey) != Some("true")
  }

  datatype RunOutcome = AlreadyMigrated | MigrationDone | Rethrown

  /**
   * `migrateFromSQLiteOnce` on the hard-coded export: once the flag is `'true'` nothing happens;
   * otherwise the transaction runs and only then is the flag set. When the transaction fails it
   * rolls back, the flag stays unset and the error is rethrown.
   */
  method MigrateFromSQLiteOnce(db: HeroTaskDatabase, storage: Browser.LocalStorage, now: Timestamp, transactionFails: bool)
    returns (outcome: RunOutcome)
    modifies db`journeys, db`heroProfile, db`tasks, db`keyGen, storage
    ensures outcome == AlreadyMigrated <==> !old(ShouldRunMigration(storage))
    ensures outcome == Rethrown <==> old(ShouldRunMigration(storage)) && transactionFails
    ensures outcome != MigrationDone ==> storage.items == old(storage.items)
    ensures outcome == MigrationDone ==> storage.items == old(storage.items)[MigrationKey := "true"]
    ensures !ShouldRunMigration(storage) <==> outcome != Rethrown
    ensures unchanged(db`journeys, db`heroProfile, db`tasks, db`keyGen)
  {
    var completed := storage.GetItem(MigrationKey);
    if completed == Some("true") {
      return AlreadyMigrated;
    }
    if transactionFails {
      return Rethrown;
    }
    MigrateLegacyData(db, HardCodedExport, now);
    storage.SetItem(MigrationKey, "true");
    outcome := MigrationDone;
  }
}
