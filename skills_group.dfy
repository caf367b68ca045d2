/**
  One technical-skills group: a category name and its skill list, both owned
  by the parent form, plus the text typed into the "add a skill" box.
 */
module SkillsGroup {
  import opened Text
  import opened Seqs

  /** The group the parent holds (`category`, `skills`) and the box's text (`newSkill`). */
  datatype State = State(category: String, skills: seq<String>, newSkill: String)

  /** The test `skills.filter(s => s !== skillToRemove)` keeps. */
  function Differs(skill: String): String -> bool {
    s => s != skill
  }

  /** `handleAddSkill`: a non-blank entry is trimmed and appended, the box cleared; the category is kept. */
  function HandleAddSkill(st: State): (r: State)
    ensures !IsBlank(st.newSkill) ==> r.skills == st.skills + [Trim(st.newSkill)] && r.newSkill == ""
    ensures IsBlank(st.newSkill) ==> r == st
    ensures r.category == st.category
  {
    if Trim(st.newSkill) != [] then State(st.category, st.skills + [Trim(st.newSkill)], "") else st
  }

  /** `handleRemoveSkill(skill)`: every copy of `skill` goes, every other skill keeps its count. */
  function HandleRemoveSkill(st: State, skill: String): (r: State)
    ensures skill !in r.skills
    ensures forall x :: x != skill ==> multiset(r.skills)[x] == multiset(st.skills)[x]
    ensures r.category == st.category && r.newSkill == st.newSkill
  {
    var kept := Filter(st.skills, Differs(skill));
    assert forall x :: x != skill ==> multiset(kept)[x] == multiset(st.skills)[x] by {
      forall x | x != skill ensures multiset(kept)[x] == multiset(st.skills)[x] {
        FilterMultiset(st.skills, Differs(skill), x);
      }
    }
    State(st.category, kept, st.newSkill)
  }

  /** The category input's change handler: `onChange(value, skills)`. */
  function EditCategory(st: State, value: String): (r: State)
    ensures r.category == value
    ensures r.skills == st.skills && r.newSkill == st.newSkill
  {
    st.(category := value)
  }

  /** `handleKeyDown`: Enter acts as `handleAddSkill` and cancels the form submission; other keys do nothing. */
  function HandleKeyDown(st: State, key: String): (r: (State, bool))
    ensures key == "Enter" ==> r.0 == HandleAddSkill(st) && r.1
    ensures key != "Enter" ==> r.0 == st && !r.1
  {
    if key == "Enter" then (HandleAddSkill(st), true) else (st, false)
  }

  /** Removal keeps the order of what remains: it works piecewise on any split of the list. */
  lemma RemoveSkillKeepsOrder(st: State, a: seq<String>, b: seq<String>, skill: String)
    requires st.skills == a + b
    ensures HandleRemoveSkill(st, skill).skills
         == HandleRemoveSkill(st.(skills := a), skill).skills + HandleRemoveSkill(st.(skills := b), skill).skills
  {
    FilterAppend(a, b, Differs(skill));
  }

  /** Removing a skill twice is removing it once. */
  lemma RemoveSkillIdempotent(st: State, skill: String)
    ensures HandleRemoveSkill(HandleRemoveSkill(st, skill), skill) == HandleRemoveSkill(st, skill)
  {
    FilterIdempotent(st.skills, Differs(skill));
  }

  /** Removing a skill that is not in the list changes nothing. */
  lemma RemoveAbsentSkill(st: State, skill: String)
    requires skill !in st.skills
    ensures HandleRemoveSkill(st, skill) == st
  {
    FilterAllPass(st.skills, Differs(skill));
  }

  /** The list grows by one exactly on a non-blank add. */
  lemma AddSkillLength(st: State)
    ensures |HandleAddSkill(st).skills| == if IsBlank(st.newSkill) then |st.skills| else |st.skills| + 1
  {
  }

  /** A skill added through the box has no outer whitespace and is not empty. */
  lemma AddedSkillIsTrimmed(st: State)
    requires !IsBlank(st.newSkill)
    ensures var s := HandleAddSkill(st).skills[|st.skills|]; s != [] && IsTrimmed(s)
  {
  }
}
