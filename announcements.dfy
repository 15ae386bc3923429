/**
 * The announcement board (src/pages/Announcements.tsx): the published-only query, the category
 * tabs, and what each announcement's card shows.
 */
module Announcements {
  import opened Wrappers
  import opened Records
  import opened Strings
  import Seqs

  /** `.order('published_at', { ascending: false })`: newest first; the database puts rows
      without a publication time before all others when sorting in descending order. */
  predicate NewestFirst(a: Announcement, b: Announcement)
  {
    a.publishedAt.None? || (b.publishedAt.Some? && a.publishedAt.value >= b.publishedAt.value)
  }

  lemma NewestFirstIsTotalPreorder()
    ensures Seqs.TotalPreorder(NewestFirst)
  {
  }

  /** `fetchAnnouncements`: the published rows, newest first. */
  function FetchAnnouncements(rows: seq<Announcement>): seq<Announcement>
  {
    Seqs.SortBy(Seqs.Filter((a: Announcement) => a.isPublished, rows), NewestFirst)
  }

  /** The board holds every published row, each as often as it is stored, and no draft; rows
      with a publication time come newest first, after any row without one. */
  lemma FetchAnnouncementsCorrect(rows: seq<Announcement>)
    ensures multiset(FetchAnnouncements(rows)) == multiset(Seqs.Filter((a: Announcement) => a.isPublished, rows))
    ensures forall a :: a in FetchAnnouncements(rows) <==> a in rows && a.isPublished
    ensures forall i, j :: 0 <= i < j < |FetchAnnouncements(rows)| && FetchAnnouncements(rows)[i].publishedAt.Some? ==>
              && FetchAnnouncements(rows)[j].publishedAt.Some?
              && FetchAnnouncements(rows)[i].publishedAt.value >= FetchAnnouncements(rows)[j].publishedAt.value
  {
    var published := Seqs.Filter((a: Announcement) => a.isPublished, rows);
    NewestFirstIsTotalPreorder();
    Seqs.SortBySorted(published, NewestFirst);
    forall a
      ensures a in FetchAnnouncements(rows) <==> a in published
    {
      assert a in FetchAnnouncements(rows) <==> a in multiset(FetchAnnouncements(rows));
    }
  }

  /** The five tabs: 'all' and one per category. */
  datatype Tab = AllTab | CategoryTab(category: Category)

  /** `filteredAnnouncements`: every announcement under 'all'; under a category tab, in order,
      exactly those of that category. */
  function FilterByTab(announcements: seq<Announcement>, tab: Tab): (r: seq<Announcement>)
    ensures tab == AllTab ==> r == announcements
    ensures tab.CategoryTab? ==> forall a :: a in r <==> a in announcements && a.category == tab.category
    ensures |r| <= |announcements|
  {
    match tab
    case AllTab => announcements
    case CategoryTab(c) => Seqs.Filter((a: Announcement) => a.category == c, announcements)
  }

  /** The four category tabs together show every announcement once: their sizes add up to the
      size of the 'all' tab. */
  lemma {:induction false} CategoryTabsPartition(announcements: seq<Announcement>)
    ensures |FilterByTab(announcements, CategoryTab(HealthTip))| + |FilterByTab(announcements, CategoryTab(News))|
            + |FilterByTab(announcements, CategoryTab(Emergency))| + |FilterByTab(announcements, CategoryTab(General))|
            == |FilterByTab(announcements, AllTab)|
  {
    if announcements != [] {
      CategoryTabsPartition(announcements[1..]);
    }
  }

  /** Replacing the underscore of 'health_tip' gives 'health tip'. */
  lemma SpacedHealthTip(name: string)
    requires name == "health_tip"
    ensures ReplaceFirst(name, '_', ' ') == "health tip"
  {
    assert "health" + [' '] + "tip" == "health tip" by {
      var joined := "health" + [' '] + "tip";
      assert |joined| == 10;
      forall i | 0 <= i < 10
        ensures joined[i] == "health tip"[i]
      {
      }
    }
    assert name == "health" + ['_'] + "tip";
    ReplaceFirstAfter("health", "tip", '_', ' ');
  }

  /** Upper-casing 'health tip' gives 'HEALTH TIP'; kept apart from the badge so that the
      character-by-character proof does not meet the unfolding of `BadgeText`. */
  lemma UpperHealthTip(spaced: string)
    requires spaced == "health tip"
    ensures ToUpper(spaced) == "HEALTH TIP"
  {
    var badge := ToUpper(spaced);
    forall i | 0 <= i < 10
      ensures badge[i] == "HEALTH TIP"[i]
    {
      ToUpperAt(spaced, i);
    }
  }

  /** The health-tip badge reads HEALTH TIP: the underscore becomes a space. */
  lemma HealthTipLabel()
    ensures BadgeText(HealthTip.Name()) == "HEALTH TIP"
  {
    SpacedHealthTip(HealthTip.Name());
    UpperHealthTip(ReplaceFirst(HealthTip.Name(), '_', ' '));
  }

  /** The other badges are the upper-cased category names, which hold no underscore. */
  lemma PlainLabels(c: Category)
    requires c != HealthTip
    ensures BadgeText(c.Name()) == ToUpper(c.Name())
  {
    var name := c.Name();
    assert '_' !in name;
    BadgeTextOfWord(name);
  }

  /** `getCategoryColor`: green, blue and red for health tips, news and emergencies; gray for
      'general' and for anything else. */
  function CategoryColor(category: string): (r: string)
    ensures r == GrayBadge <==> category !in {"health_tip", "news", "emergency"}
  {
    match category
    case "health_tip" => "bg-green-100 text-green-800"
    case "news" => "bg-blue-100 text-blue-800"
    case "emergency" => "bg-red-100 text-red-800"
    case "general" => GrayBadge
    case _ => GrayBadge
  }

  /** The line under "No announcements found" when a tab is empty: the category's name with its
      underscore read as a space. */
  function EmptyTabMessage(tab: Tab): string
  {
    match tab
    case AllTab => "No announcements have been posted yet."
    case CategoryTab(c) => "No " + ReplaceFirst(c.Name(), '_', ' ') + " announcements found."
  }

  /** The empty tab's text: its own sentence for the 'All' tab, the health-tip tab names
      'health tip' with a space, and every other category its plain name. */
  lemma EmptyTabMessages(tab: Tab)
    ensures tab == AllTab ==> EmptyTabMessage(tab) == "No announcements have been posted yet."
    ensures tab == CategoryTab(HealthTip) ==> EmptyTabMessage(tab) == "No " + "health tip" + " announcements found."
    ensures tab.CategoryTab? && tab.category != HealthTip ==>
              EmptyTabMessage(tab) == "No " + tab.category.Name() + " announcements found."
  {
    if tab.CategoryTab? {
      if tab.category == HealthTip {
        SpacedHealthTip(tab.category.Name());
      } else {
        assert '_' !in tab.category.Name();
      }
    }
  }

  /** What the card of one announcement shows. */
  datatype AnnouncementCard = AnnouncementCard(
    badge: string,
    color: string,
    date: int,
    title: string,
    paragraphs: seq<string>,
    emergencyNotice: bool)

  /** The card: the category badge, `published_at || created_at` as its date, one paragraph per
      line of the content, and the emergency notice for emergencies only. */
  function Card(a: Announcement): (c: AnnouncementCard)
    ensures c.badge == BadgeText(a.category.Name()) && c.color == CategoryColor(a.category.Name())
    ensures c.date == if a.publishedAt.Some? then a.publishedAt.value else a.createdAt
    ensures c.title == a.title
    ensures |c.paragraphs| >= 1 && forall p :: p in c.paragraphs ==> '\n' !in p
    ensures Join(c.paragraphs, '\n') == a.content
    ensures c.emergencyNotice <==> a.category == Emergency
  {
    JoinSplit(a.content, '\n');
    SplitPiecesAreSeparatorFree(a.content, '\n');
    AnnouncementCard(
      BadgeText(a.category.Name()),
      CategoryColor(a.category.Name()),
      a.publishedAt.GetOr(a.createdAt),
      a.title,
      Split(a.content, '\n'),
      a.category == Emergency)
  }

  /** Content without a line break shows as one paragraph, and each line break adds one. */
  lemma ParagraphsOfLines(a: Announcement, first: string, rest: string)
    requires '\n' !in first
    ensures a.content == first ==> Card(a).paragraphs == [first]
    ensures a.content == first + "\n" + rest ==> Card(a).paragraphs == [first] + Split(rest, '\n')
  {
    SplitWithoutSeparator(first, '\n');
    SplitAroundSeparator(first, rest, '\n');
  }
}
