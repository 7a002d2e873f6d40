/** The collections page: every catalog item tagged with its section, and
    the one section the active filter pill selects. */
module Collections {
  import opened Catalog

  /** A catalog item together with the id and title of its section. */
  datatype TaggedItem = TaggedItem(item: JourneyItem, sectionId: string, sectionTitle: string)

  /** A filter pill: the section id it selects and the text it shows. */
  datatype FilterPill = FilterPill(id: string, text: string)

  const ALL_SECTIONS: seq<SectionData> :=
    [STRING_THEORY, VOICE_OF_DEVOTION, TIMELESS_ECHOES, RAAG_FIELD, HEART_SPACE, SANSKRIT_CODES]

  const FILTERS: seq<FilterPill> := [
    FilterPill("string-theory", "String Theory"),
    FilterPill("voice-of-devotion", "Devotion"),
    FilterPill("timeless-echoes", "Echoes"),
    FilterPill("raag-field", "Raag Field"),
    FilterPill("heart-space", "Heart Space"),
    FilterPill("sanskrit-codes", "Ancient Codes")
  ]

  const DEFAULT_FILTER := "string-theory"

  /** One section's items, each tagged with the section. */
  function Tag(section: SectionData): (r: seq<TaggedItem>)
    ensures |r| == |section.items|
    ensures forall k :: 0 <= k < |r| ==> r[k] == TaggedItem(section.items[k], section.id, section.title)
  {
    TagFrom(section.items, section.id, section.title)
  }

  function TagFrom(items: seq<JourneyItem>, id: string, title: string): (r: seq<TaggedItem>)
    ensures |r| == |items|
    ensures forall k :: 0 <= k < |r| ==> r[k] == TaggedItem(items[k], id, title)
  {
    if items == [] then [] else [TaggedItem(items[0], id, title)] + TagFrom(items[1..], id, title)
  }

  /** `allItems`: the sections' tagged items, concatenated in order. */
  function AllItems(sections: seq<SectionData>): seq<TaggedItem>
  {
    if sections == [] then [] else Tag(sections[0]) + AllItems(sections[1..])
  }

  function TotalItems(sections: seq<SectionData>): nat
  {
    if sections == [] then 0 else |sections[0].items| + TotalItems(sections[1..])
  }

  /** The items whose section id is `id`, in their original order. */
  function FilterBySection(items: seq<TaggedItem>, id: string): seq<TaggedItem>
  {
    if items == [] then []
    else if items[0].sectionId == id then [items[0]] + FilterBySection(items[1..], id)
    else FilterBySection(items[1..], id)
  }

  /** `getSectionLabel(id)`. */
  function SectionLabel(id: string): string
  {
    if id == "string-theory" then "STRINGS"
    else if id == "voice-of-devotion" then "VOICES"
    else if id == "timeless-echoes" then "ECHOES"
    else if id == "raag-field" then "LANDSCAPES"
    else if id == "heart-space" then "HEART RESONANCE"
    else if id == "sanskrit-codes" then "ANCIENT CODES"
    else "JOURNEY"
  }

  /** The flattened list is as long as all sections together. */
  lemma {:induction false} AllItemsLength(sections: seq<SectionData>)
    ensures |AllItems(sections)| == TotalItems(sections)
  {
    if sections != [] {
      AllItemsLength(sections[1..]);
    }
  }

  /** `t` is an item of `sections[j]`, tagged with that section. */
  predicate InSection(t: TaggedItem, sections: seq<SectionData>, j: int)
  {
    0 <= j < |sections| && t.item in sections[j].items
    && t.sectionId == sections[j].id && t.sectionTitle == sections[j].title
  }

  /** Every flattened entry is an item of some section, tagged with that
      section's id and title. */
  lemma {:induction false} AllItemsTagged(sections: seq<SectionData>, t: TaggedItem)
    requires t in AllItems(sections)
    ensures exists j :: InSection(t, sections, j)
  {
    if t in Tag(sections[0]) {
      var k :| 0 <= k < |Tag(sections[0])| && Tag(sections[0])[k] == t;
      assert t.item == sections[0].items[k];
      assert InSection(t, sections, 0);
    } else {
      AllItemsTagged(sections[1..], t);
      var j :| InSection(t, sections[1..], j);
      assert InSection(t, sections, j + 1);
    }
  }

  /** An entry survives the filter exactly when it is in the input and
      carries the filter's id. */
  lemma {:induction false} FilterMembership(items: seq<TaggedItem>, id: string, t: TaggedItem)
    ensures t in FilterBySection(items, id) <==> t in items && t.sectionId == id
  {
    if items != [] {
      FilterMembership(items[1..], id, t);
      assert items == [items[0]] + items[1..];
    }
  }

  /** Filtering commutes with concatenation; with the singleton case this
      says the filter keeps the original relative order. */
  lemma {:induction false} FilterAppend(a: seq<TaggedItem>, b: seq<TaggedItem>, id: string)
    ensures FilterBySection(a + b, id) == FilterBySection(a, id) + FilterBySection(b, id)
  {
    if a == [] {
      assert a + b == b;
    } else {
      assert (a + b)[0] == a[0];
      assert (a + b)[1..] == a[1..] + b;
      FilterAppend(a[1..], b, id);
    }
  }

  /** Every entry of one section's tagged list carries the same id, so the
      filter keeps all of them or none. */
  lemma {:induction false} FilterTagged(items: seq<JourneyItem>, sid: string, title: string, id: string)
    ensures FilterBySection(TagFrom(items, sid, title), id) == if sid == id then TagFrom(items, sid, title) else []
  {
    if items != [] {
      FilterTagged(items[1..], sid, title, id);
    }
  }

  /** With distinct section ids, filtering the flattened list on the id of
      section `j` gives back exactly that section's tagged items. */
  lemma {:induction false} FilterSelectsSection(sections: seq<SectionData>, j: nat)
    requires Distinct(SectionIds(sections))
    requires j < |sections|
    ensures FilterBySection(AllItems(sections), sections[j].id) == Tag(sections[j])
  {
    DistinctIdsTail(sections);
    if j == 0 {
      FilterSelectsHead(sections);
    } else {
      var rest := sections[1..];
      assert rest[j - 1] == sections[j];
      FilterSkipsHead(sections, sections[j].id);
      FilterSelectsSection(rest, j - 1);
    }
  }

  /** When no later section shares the first one's id, the filter on that id
      keeps exactly the first section's items. */
  lemma FilterSelectsHead(sections: seq<SectionData>)
    requires sections != []
    requires forall s :: s in sections[1..] ==> s.id != sections[0].id
    ensures FilterBySection(AllItems(sections), sections[0].id) == Tag(sections[0])
  {
    var id := sections[0].id;
    FilterAppend(Tag(sections[0]), AllItems(sections[1..]), id);
    FilterTagged(sections[0].items, id, sections[0].title, id);
    FilterAbsent(sections[1..], id);
    assert Tag(sections[0]) + [] == Tag(sections[0]);
  }

  /** A filter on another id drops the first section entirely. */
  lemma FilterSkipsHead(sections: seq<SectionData>, id: string)
    requires sections != [] && sections[0].id != id
    ensures FilterBySection(AllItems(sections), id) == FilterBySection(AllItems(sections[1..]), id)
  {
    FilterAppend(Tag(sections[0]), AllItems(sections[1..]), id);
    FilterTagged(sections[0].items, sections[0].id, sections[0].title, id);
    assert [] + FilterBySection(AllItems(sections[1..]), id) == FilterBySection(AllItems(sections[1..]), id);
  }

  /** Dropping the first section keeps the ids distinct, and no later
      section shares the first one's id. */
  lemma DistinctIdsTail(sections: seq<SectionData>)
    requires sections != [] && Distinct(SectionIds(sections))
    ensures Distinct(SectionIds(sections[1..]))
    ensures forall s :: s in sections[1..] ==> s.id != sections[0].id
  {
    var ids := SectionIds(sections);
    var tail := SectionIds(sections[1..]);
    forall i, k | 0 <= i < k < |tail| ensures tail[i] != tail[k] {
      assert tail[i] == ids[i + 1] && tail[k] == ids[k + 1];
    }
    forall s | s in sections[1..] ensures s.id != sections[0].id {
      var i :| 0 <= i < |sections[1..]| && sections[1..][i] == s;
      assert ids[i + 1] == s.id;
    }
  }

  /** No item survives a filter whose id no section carries. */
  lemma {:induction false} FilterAbsent(sections: seq<SectionData>, id: string)
    requires forall s :: s in sections ==> s.id != id
    ensures FilterBySection(AllItems(sections), id) == []
  {
    if sections != [] {
      FilterAppend(Tag(sections[0]), AllItems(sections[1..]), id);
      FilterTagged(sections[0].items, sections[0].id, sections[0].title, id);
      assert sections[0] in sections;
      FilterAbsent(sections[1..], id);
    }
  }

  /** The page lists the six catalog sections in file order; the k-th pill
      selects the k-th section. */
  lemma PillsMatchSections()
    ensures ALL_SECTIONS == SECTIONS
    ensures |FILTERS| == |ALL_SECTIONS|
    ensures forall k :: 0 <= k < |FILTERS| ==> FILTERS[k].id == ALL_SECTIONS[k].id
  {
  }

  /** The page shows fifteen items in all. */
  lemma AllItemsCount()
    ensures |AllItems(ALL_SECTIONS)| == 15
  {
    AllItemsLength(ALL_SECTIONS);
    ItemIdsDistinct();
    ItemIdsAreItems(ALL_SECTIONS);
  }

  /** The item ids of a section list are as many as its items. */
  lemma {:induction false} ItemIdsAreItems(sections: seq<SectionData>)
    ensures |ItemIds(sections)| == TotalItems(sections)
  {
    if sections != [] {
      ItemIdsAreItems(sections[1..]);
    }
  }

  /** The k-th pill shows exactly the k-th section's items, and never an
      empty grid. */
  lemma PillShowsItsSection(k: nat)
    requires k < |FILTERS|
    ensures FilterBySection(AllItems(ALL_SECTIONS), FILTERS[k].id) == Tag(ALL_SECTIONS[k])
    ensures FilterBySection(AllItems(ALL_SECTIONS), FILTERS[k].id) != []
  {
    PillsMatchSections();
    SectionIdsDistinct();
    SectionsNonEmpty();
    FilterSelectsSection(ALL_SECTIONS, k);
  }

  /** A listed section id has its own label; any other string falls back to
      "JOURNEY". */
  lemma LabelOfListedId(id: string)
    ensures id in SECTION_IDS <==> SectionLabel(id) != "JOURNEY"
  {
  }

  /** The label table for the six section ids, and the fallback for any
      other string. */
  lemma SectionLabels(id: string)
    ensures SectionLabel("string-theory") == "STRINGS"
    ensures SectionLabel("voice-of-devotion") == "VOICES"
    ensures SectionLabel("timeless-echoes") == "ECHOES"
    ensures SectionLabel("raag-field") == "LANDSCAPES"
    ensures SectionLabel("heart-space") == "HEART RESONANCE"
    ensures SectionLabel("sanskrit-codes") == "ANCIENT CODES"
    ensures SectionById(ALL_SECTIONS, id).None? ==> SectionLabel(id) == "JOURNEY"
    ensures SectionById(ALL_SECTIONS, id).Some? ==> SectionLabel(id) != "JOURNEY"
  {
    PillsMatchSections();
    SectionIdsListed();
    SectionByIdFound(ALL_SECTIONS, id);
    LabelOfListedId(id);
  }

  /** The `activeFilter` cell of the page. */
  class CollectionsBrowser {
    var activeFilter: string

    /** The active filter is always one of the pills' ids. */
    ghost predicate Valid()
      reads this
    {
      exists k :: 0 <= k < |FILTERS| && FILTERS[k].id == activeFilter
    }

    constructor()
      ensures activeFilter == DEFAULT_FILTER
      ensures Valid()
    {
      activeFilter := DEFAULT_FILTER;
      new;
      assert FILTERS[0].id == activeFilter;
    }

    /** A click on pill `k`. */
    method SelectFilter(k: nat)
      requires k < |FILTERS|
      modifies this
      ensures activeFilter == FILTERS[k].id
      ensures Valid()
    {
      activeFilter := FILTERS[k].id;
    }

    /** `filteredItems`: never empty while the filter is a pill's id. */
    function FilteredItems(): (r: seq<TaggedItem>)
      reads this
      requires Valid()
      ensures r != []
      ensures forall t :: t in r <==> t in AllItems(ALL_SECTIONS) && t.sectionId == activeFilter
    {
      var k :| 0 <= k < |FILTERS| && FILTERS[k].id == activeFilter;
      PillShowsItsSection(k);
      var r := FilterBySection(AllItems(ALL_SECTIONS), activeFilter);
      assert forall t :: t in r <==> t in AllItems(ALL_SECTIONS) && t.sectionId == activeFilter by {
        forall t ensures t in r <==> t in AllItems(ALL_SECTIONS) && t.sectionId == activeFilter {
          FilterMembership(AllItems(ALL_SECTIONS), activeFilter, t);
        }
      }
      r
    }
  }
}
