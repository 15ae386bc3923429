/**
 * The doctor directory (src/pages/Doctors.tsx): the doctors query, the search box, the
 * support message and the call button.
 */
module Doctors {
  import opened Wrappers
  import opened Records
  import opened Strings
  import Seqs

  /** `.order('full_name', { ascending: true })`. */
  predicate NameOrder(a: Profile, b: Profile)
  {
    Seqs.LexLeq(a.fullName, b.fullName)
  }

  lemma NameOrderIsTotalPreorder()
    ensures Seqs.TotalPreorder(NameOrder)
  {
    forall a, b
      ensures NameOrder(a, b) || NameOrder(b, a)
    {
      Seqs.LexLeqTotal(a.fullName, b.fullName);
    }
    forall a, b, c | NameOrder(a, b) && NameOrder(b, c)
      ensures NameOrder(a, c)
    {
      Seqs.LexLeqTransitive(a.fullName, b.fullName, c.fullName);
    }
  }

  /** `fetchDoctors`: the profiles whose role is 'doctor', by full name. */
  function FetchDoctors(profiles: seq<Profile>): seq<Profile>
  {
    Seqs.SortBy(Seqs.Filter((p: Profile) => p.role == Doctor, profiles), NameOrder)
  }

  /** The directory lists every doctor profile, each as often as it is stored, no other
      profile, in ascending order of full name. */
  lemma FetchDoctorsCorrect(profiles: seq<Profile>)
    ensures multiset(FetchDoctors(profiles)) == multiset(Seqs.Filter((p: Profile) => p.role == Doctor, profiles))
    ensures forall p :: p in FetchDoctors(profiles) <==> p in profiles && p.role == Doctor
    ensures forall i, j :: 0 <= i < j < |FetchDoctors(profiles)| ==>
              Seqs.LexLeq(FetchDoctors(profiles)[i].fullName, FetchDoctors(profiles)[j].fullName)
  {
    var doctors := Seqs.Filter((p: Profile) => p.role == Doctor, profiles);
    NameOrderIsTotalPreorder();
    Seqs.SortBySorted(doctors, NameOrder);
    forall p
      ensures p in FetchDoctors(profiles) <==> p in doctors
    {
      assert p in FetchDoctors(profiles) <==> p in multiset(FetchDoctors(profiles));
    }
  }

  /** `x?.toLowerCase().includes(t)` on an optional column. */
  predicate OptionalIncludes(x: Option<string>, t: string)
  {
    x.Some? && Includes(ToLower(x.value), t)
  }

  /** The test of the search box: name, specialization or bio contains the term, ignoring case. */
  predicate MatchesSearch(d: Profile, term: string)
  {
    var t := ToLower(term);
    Includes(ToLower(d.fullName), t) || OptionalIncludes(d.specialization, t) || OptionalIncludes(d.bio, t)
  }

  /** The effect on `searchTerm`: an empty term lists every doctor; any other keeps, in order,
      the doctors that match. */
  function SearchDoctors(doctors: seq<Profile>, term: string): (r: seq<Profile>)
    ensures term == [] ==> r == doctors
    ensures term != [] ==> forall d :: d in r <==> d in doctors && MatchesSearch(d, term)
    ensures |r| <= |doctors|
  {
    if term == [] then doctors else Seqs.Filter((d: Profile) => MatchesSearch(d, term), doctors)
  }

  /** The search keeps the directory's order: searching a concatenation searches each part. */
  lemma SearchPreservesOrder(a: seq<Profile>, b: seq<Profile>, term: string)
    ensures SearchDoctors(a + b, term) == SearchDoctors(a, term) + SearchDoctors(b, term)
  {
    if term != [] {
      Seqs.FilterConcat((d: Profile) => MatchesSearch(d, term), a, b);
    }
  }

  /** A doctor whose specialization contains `term` verbatim is found by any `typed` text that
      differs from `term` only in letter case. */
  lemma SpecializationSearchIgnoresCase(d: Profile, term: string, typed: string)
    requires d.specialization.Some? && Includes(d.specialization.value, term)
    requires ToLower(typed) == ToLower(term)
    ensures MatchesSearch(d, typed)
  {
    IncludesLowered(d.specialization.value, term);
  }

  const Greeting := "Hi, I need help regarding Dr. "
  const Closing := ". Please assist me."

  /** The text of the WhatsApp support message, before URL encoding: the doctor's name and, when
      the specialization is set and non-empty, the specialization in parentheses. */
  function SupportMessage(d: Profile): (m: string)
    ensures |m| >= |Greeting| + |d.fullName| + |Closing|
    ensures m[..|Greeting| + |d.fullName|] == Greeting + d.fullName
    ensures m[|m| - |Closing|..] == Closing
  {
    Greeting + d.fullName + (if Truthy(d.specialization) then " (" + d.specialization.value + ")" else "") + Closing
  }

  /** The parenthesised specialization follows the name exactly when the specialization is set
      and non-empty. */
  lemma SupportMessageNamesSpecialization(d: Profile)
    ensures OccursAt(SupportMessage(d), " (" + OrEmpty(d.specialization) + ")", |Greeting| + |d.fullName|)
            <==> Truthy(d.specialization)
  {
    var m := SupportMessage(d);
    var k := |Greeting| + |d.fullName|;
    var part := " (" + OrEmpty(d.specialization) + ")";
    if Truthy(d.specialization) {
      assert m == (Greeting + d.fullName) + part + Closing;
      assert m[k..k + |part|] == part;
    } else {
      assert m == (Greeting + d.fullName) + Closing;
      assert m[k] == Closing[0] == '.';
      if k + |part| <= |m| {
        assert m[k..k + |part|][0] == m[k];
        assert part[0] == ' ';
      }
    }
  }

  /** What the call button does. */
  datatype CallAction = Dial(uri: string) | PhoneUnavailable

  /** `handleCallDoctor`: dial when the profile has a non-empty phone, otherwise say it is not
      available. */
  function CallDoctor(phone: Option<string>): (a: CallAction)
    ensures a.Dial? <==> Truthy(phone)
    ensures a.Dial? ==> a.uri == "tel:" + phone.value
  {
    if Truthy(phone) then Dial("tel:" + phone.value) else PhoneUnavailable
  }
}
