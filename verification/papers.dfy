/**
 The capacity rule of the exam-paper builders (administrator and exam
 personnel): Section A holds at most five questions and any other section at
 most three. A paper set maps section names to their question texts.
 */
module ExamPapers {

  type Paper = map<string, seq<string>>
  type Papers = map<string, Paper>

  const SectionA: string := "Section A"
  const SectionB: string := "Section B"

  /** The most questions a section may hold: 5 for Section A, 3 for any other. */
  function Limit(section: string): nat {
    if section == SectionA then 5 else 3
  }

  /** Every section of every set is within its limit. */
  predicate WithinLimits(papers: Papers) {
    forall setName, section | setName in papers && section in papers[setName] ::
      |papers[setName][section]| <= Limit(section)
  }

  /** The two empty sets a fresh install starts with. */
  function InitialPapers(): (papers: Papers)
    ensures papers.Keys == {"Set 1", "Set 2"}
    ensures forall setName | setName in papers :: papers[setName] == map[SectionA := [], SectionB := []]
    ensures WithinLimits(papers)
  {
    var empty := map[SectionA := [], SectionB := []];
    map["Set 1" := empty, "Set 2" := empty]
  }

  datatype AddOutcome =
    | AddedToPaper
    /** "... already has maximum of {limit} questions." */
    | SectionFull(limit: nat)

  /** The rule on one section: the question is appended unless the section
      already holds its limit. */
  function AddToSection(questions: seq<string>, section: string, q: string): (r: (seq<string>, AddOutcome))
    ensures r.1.SectionFull? <==> |questions| >= Limit(section)
    ensures r.1.SectionFull? ==> r.1.limit == Limit(section) && r.0 == questions
    ensures r.1.AddedToPaper? ==> r.0 == questions + [q]
    ensures |questions| <= Limit(section) ==> |r.0| <= Limit(section)
  {
    var limit := Limit(section);
    if |questions| >= limit then (questions, SectionFull(limit)) else (questions + [q], AddedToPaper)
  }

  datatype AddStep = AddStep(papers: Papers, outcome: AddOutcome)

  /** "Add to Exam Paper": the section rule applied to the chosen section of
      the chosen set. The set and the section are picked from the ones the
      papers have. */
  function AddQuestion(papers: Papers, setName: string, section: string, q: string): (r: AddStep)
    requires setName in papers && section in papers[setName]
    ensures r.outcome == AddToSection(papers[setName][section], section, q).1
    ensures r.outcome.SectionFull? ==> r.papers == papers
    ensures r.outcome.AddedToPaper? ==>
      r.papers == papers[setName := papers[setName][section := papers[setName][section] + [q]]]
    ensures WithinLimits(papers) ==> WithinLimits(r.papers)
  {
    var (questions, outcome) := AddToSection(papers[setName][section], section, q);
    if outcome.SectionFull? then
      AddStep(papers, outcome)
    else
      AddStep(papers[setName := papers[setName][section := questions]], outcome)
  }

  /** One add request: the set, the section and the question text. */
  datatype Request = Request(setName: string, section: string, question: string)

  /** The requests a form can make: only sets and sections the papers have. */
  predicate Addressable(papers: Papers, reqs: seq<Request>) {
    forall i | 0 <= i < |reqs| :: reqs[i].setName in papers && reqs[i].section in papers[reqs[i].setName]
  }

  /** The requests applied one after another. */
  function AddAll(papers: Papers, reqs: seq<Request>): (r: Papers)
    requires Addressable(papers, reqs)
    ensures r.Keys == papers.Keys
    ensures forall setName | setName in papers :: r[setName].Keys == papers[setName].Keys
    decreases |reqs|
  {
    if |reqs| == 0 then
      papers
    else
      var step := AddQuestion(papers, reqs[0].setName, reqs[0].section, reqs[0].question);
      AddAll(step.papers, reqs[1..])
  }

  /** Papers that start within their limits stay within them, whatever is
      added and in whatever order. */
  lemma {:induction false} AddAllWithinLimits(papers: Papers, reqs: seq<Request>)
    requires WithinLimits(papers) && Addressable(papers, reqs)
    ensures WithinLimits(AddAll(papers, reqs))
    decreases |reqs|
  {
    if |reqs| > 0 {
      var step := AddQuestion(papers, reqs[0].setName, reqs[0].section, reqs[0].question);
      AddAllWithinLimits(step.papers, reqs[1..]);
    }
  }

  /** `qs` added one after another to one section. */
  function AddAllToSection(questions: seq<string>, section: string, qs: seq<string>): (r: seq<string>)
    ensures |questions| <= Limit(section) ==> |r| <= Limit(section)
    decreases |qs|
  {
    if |qs| == 0 then questions else AddAllToSection(AddToSection(questions, section, qs[0]).0, section, qs[1..])
  }

  /** Questions added to a section while it has room are all kept, in order,
      after the ones already there. */
  lemma {:induction false} FillSection(questions: seq<string>, section: string, qs: seq<string>)
    requires |questions| + |qs| <= Limit(section)
    ensures AddAllToSection(questions, section, qs) == questions + qs
    decreases |qs|
  {
    if |qs| > 0 {
      FillSection(questions + [qs[0]], section, qs[1..]);
      assert questions + [qs[0]] + qs[1..] == questions + qs;
    }
  }

  /** A section filled to its limit from empty holds exactly the questions
      added and rejects the next one, naming its limit. */
  lemma FilledSectionIsFull(section: string, qs: seq<string>, extra: string)
    requires |qs| == Limit(section)
    ensures AddAllToSection([], section, qs) == qs
    ensures AddToSection(qs, section, extra) == (qs, SectionFull(Limit(section)))
  {
    FillSection([], section, qs);
  }

  /** Section A takes five questions and Section B three. */
  lemma SectionCapacities()
    ensures Limit(SectionA) == 5 && Limit(SectionB) == 3
  {
  }
}
