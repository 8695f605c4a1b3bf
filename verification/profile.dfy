/** The user profile: saving it from the edit form and showing it in the header. */
module Profiles {
  import opened Wrappers
  import opened Text

  datatype Profile = Profile(name: string, job: string)

  /** What the page holds before any profile is loaded or saved. */
  const InitialProfile: Profile := Profile("", "")

  const NameAlert: string := "Please enter at least your name!"
  const NameFallback: string := "Guest"
  const JobFallback: string := "Dreamer"

  /** A profile in the form a successful save produces: trimmed fields, non-empty name. */
  predicate IsSaved(p: Profile) {
    p.name != [] && Unpadded(p.name) && Unpadded(p.job)
  }

  /** `saveProfile`: trim both inputs; an empty name is rejected, otherwise the whole
      record is replaced by the trimmed pair. */
  function SaveProfile(nameInput: string, jobInput: string): (r: Result<Profile, string>)
    ensures r.Failure? <==> AllWhitespace(nameInput)
    ensures r.Failure? ==> r.error == NameAlert
    ensures r.Success? ==> IsSaved(r.value)
    ensures r.Success? ==> r.value.name == Trim(nameInput) && r.value.job == Trim(jobInput)
  {
    var name := Trim(nameInput);
    var job := Trim(jobInput);
    if name != [] then Success(Profile(name, job)) else Failure(NameAlert)
  }

  /** The text shown for a field: the field itself, or `fallback` when it is empty. */
  function OrFallback(field: string, fallback: string): (shown: string)
    requires fallback != []
    ensures shown != []
    ensures field != [] ==> shown == field
    ensures field == [] ==> shown == fallback
  {
    if field != [] then field else fallback
  }

  /** `updateProfileUI`: the name and job shown in the header. The stored record is not
      changed by the fallbacks. */
  function DisplayedProfile(p: Profile): (shown: Profile)
    ensures shown.name != [] && shown.job != []
    ensures p.name != [] ==> shown.name == p.name
    ensures p.job != [] ==> shown.job == p.job
    ensures shown.name == NameFallback <==> p.name == [] || p.name == NameFallback
    ensures shown.job == JobFallback <==> p.job == [] || p.job == JobFallback
  {
    Profile(OrFallback(p.name, NameFallback), OrFallback(p.job, JobFallback))
  }

  /** After a successful save the header shows the trimmed name itself, and the trimmed
      job unless it was left blank. */
  lemma DisplayAfterSave(nameInput: string, jobInput: string)
    requires SaveProfile(nameInput, jobInput).Success?
    ensures var p := SaveProfile(nameInput, jobInput).value;
      && DisplayedProfile(p).name == Trim(nameInput)
      && DisplayedProfile(p).job == if AllWhitespace(jobInput) then JobFallback else Trim(jobInput)
  {
  }

  /** Opening the edit form fills it with the stored fields; saving that unchanged gives
      back the same profile. */
  lemma ResaveUnchanged(p: Profile)
    requires IsSaved(p)
    ensures SaveProfile(p.name, p.job) == Success(p)
  {
    TrimUnique(p.name, p.name, 0);
    TrimUnique(p.job, p.job, 0);
  }
}
