/** The report prompt: the roadmap projected to categories (in settings-key
    order) with their items, written out as markdown-like text. */
module Prompt {
  import opened Roadmap
  import opened Seqs
  import opened Actions

  /** What the prompt keeps of an item. */
  datatype PromptItem = PromptItem(title: string, description: string, quarter: Quarter)

  /** One `roadmapData.categories` entry. */
  datatype PromptCategory = PromptCategory(id: string, name: string, items: seq<PromptItem>)

  function Project(it: Item): PromptItem {
    PromptItem(it.title, it.description, it.quarter)
  }

  /** The entry for one settings key: its name and, in `items` order, the
      items tagged with it. */
  function Entry(items: seq<Item>, settings: map<string, CategorySettings>, k: string): PromptCategory
    requires k in settings
  {
    PromptCategory(k, settings[k].name, Map(Filter(items, InCategory(k)), Project))
  }

  /** `roadmapData`: one entry per `categorySettings` entry, in key order
      (not `categoryOrder`). */
  function RoadmapData(items: seq<Item>, keys: seq<string>, settings: map<string, CategorySettings>): (r: seq<PromptCategory>)
    requires forall k :: k in keys ==> k in settings
    ensures |r| == |keys|
    ensures forall i :: 0 <= i < |keys| ==> r[i] == Entry(items, settings, keys[i])
  {
    if keys == [] then []
    else
      var r := [Entry(items, settings, keys[0])] + RoadmapData(items, keys[1..], settings);
      assert forall i :: 1 <= i < |keys| ==> r[i] == RoadmapData(items, keys[1..], settings)[i - 1];
      r
  }

  const Preamble := "Here is the product roadmap data:\n\n"

  /** `- title` and, when the description is non-empty, an indented line
      holding it. */
  function ItemText(p: PromptItem): string {
    var head := "- " + p.title + "\n";
    if p.description != [] then head + ("  " + p.description + "\n") else head
  }

  /** An item's text starts with its title line; after it comes the
      description, indented by two spaces and ended by a newline, when there
      is one, and nothing when there is none. */
  lemma ItemTextShape(p: PromptItem)
    ensures "- " + p.title + "\n" <= ItemText(p)
    ensures (p.description == []) <==> (ItemText(p) == "- " + p.title + "\n")
    ensures p.description != [] ==> ItemText(p)[|p.title| + 3..] == "  " + p.description + "\n"
  {
    var head := "- " + p.title + "\n";
    if p.description != [] {
      assert |ItemText(p)| > |head|;
      assert ItemText(p)[|head|..] == "  " + p.description + "\n";
    }
  }

  function InQuarter(q: Quarter): PromptItem -> bool {
    (p: PromptItem) => p.quarter == q
  }

  /** A quarter's block: nothing when the quarter has no items, otherwise the
      quarter's name, its item lines and a blank line. */
  function QuarterBlock(ps: seq<PromptItem>, q: Quarter): string {
    var qs := Filter(ps, InQuarter(q));
    if qs == [] then "" else QuarterName(q) + ":\n" + Concat(qs, ItemText) + "\n"
  }

  /** A quarter emits nothing exactly when none of the items is in it. */
  lemma QuarterBlockEmptyIff(ps: seq<PromptItem>, q: Quarter)
    ensures (QuarterBlock(ps, q) == []) <==> (forall p :: p in ps ==> p.quarter != q)
  {
    var qs := Filter(ps, InQuarter(q));
    forall p | p in ps
      ensures p in qs <==> p.quarter == q
    {
      FilterMember(ps, InQuarter(q), p);
    }
    if qs != [] {
      assert qs[0] in qs;
    }
  }

  function QuarterBlockOf(ps: seq<PromptItem>): Quarter -> string {
    (q: Quarter) => QuarterBlock(ps, q)
  }

  function Header(c: PromptCategory): string {
    "## " + c.name + "\n\n"
  }

  /** A category's section: its header, then one block per quarter of
      `Quarters`. */
  function CategoryText(c: PromptCategory): string {
    Header(c) + Concat(Quarters, QuarterBlockOf(c.items))
  }

  /** The whole prompt. */
  function PromptText(cs: seq<PromptCategory>): string {
    Preamble + Concat(cs, CategoryText)
  }

  /** Four loop rounds over `Quarters`. */
  lemma ConcatQuarters<U>(f: Quarter -> seq<U>)
    ensures Concat(Quarters, f) == f(Q1) + f(Q2) + f(Q3) + f(Q4)
  {
    assert Concat([], f) == [];
    ConcatSnoc([], Q1, f);
    assert [] + [Q1] == [Q1];
    ConcatSnoc([Q1], Q2, f);
    assert [Q1] + [Q2] == [Q1, Q2];
    ConcatSnoc([Q1, Q2], Q3, f);
    assert [Q1, Q2] + [Q3] == [Q1, Q2, Q3];
    ConcatSnoc([Q1, Q2, Q3], Q4, f);
    assert [Q1, Q2, Q3] + [Q4] == Quarters;
  }

  /** A section is its header and then the Q1, Q2, Q3 and Q4 blocks, in
      that order. */
  lemma SectionLayout(c: PromptCategory)
    ensures CategoryText(c) == Header(c) + (QuarterBlock(c.items, Q1) + QuarterBlock(c.items, Q2)
                                           + QuarterBlock(c.items, Q3) + QuarterBlock(c.items, Q4))
  {
    var f := QuarterBlockOf(c.items);
    ConcatQuarters(f);
    assert f(Q1) == QuarterBlock(c.items, Q1) && f(Q2) == QuarterBlock(c.items, Q2);
    assert f(Q3) == QuarterBlock(c.items, Q3) && f(Q4) == QuarterBlock(c.items, Q4);
  }

  /** The prompt is the preamble followed by one section per entry, in
      entry order: the `i`th section sits between those of the earlier and
      of the later entries. */
  lemma SectionsInOrder(cs: seq<PromptCategory>, i: nat)
    requires i < |cs|
    ensures PromptText(cs)
            == Preamble + Concat(cs[..i], CategoryText) + CategoryText(cs[i]) + Concat(cs[i + 1..], CategoryText)
  {
    ConcatAround(cs, i, CategoryText);
    var a, b, c := Concat(cs[..i], CategoryText), CategoryText(cs[i]), Concat(cs[i + 1..], CategoryText);
    AppendAssoc(Preamble, a + b, c);
    AppendAssoc(Preamble, a, b);
  }

  /** An entry lists the projection of an item exactly when some item
      with that projection carries the entry's category. */
  lemma EntryListsIff(items: seq<Item>, settings: map<string, CategorySettings>, k: string, p: PromptItem)
    requires k in settings
    ensures p in Entry(items, settings, k).items <==> exists x :: x in items && x.category == Ref(k) && Project(x) == p
  {
    MapFilterMember(items, InCategory(k), Project, p);
  }

  /** An item tagged with a category that has settings is listed under
      that category's entry. */
  lemma TaggedIsListed(items: seq<Item>, keys: seq<string>, settings: map<string, CategorySettings>, x: Item)
    requires forall k :: k in keys ==> k in settings
    requires x in items && x.category.Ref? && x.category.id in keys
    ensures var data := RoadmapData(items, keys, settings);
      var i := IndexOf(keys, x.category.id);
      0 <= i < |data| && data[i].id == x.category.id && Project(x) in data[i].items
  {
    var data := RoadmapData(items, keys, settings);
    var k := x.category.id;
    var i := IndexOf(keys, k);
    var e := Entry(items, settings, k);
    EntryListsIff(items, settings, k, Project(x));
    assert Project(x) in e.items by {
      assert x in items && x.category == Ref(k);
    }
    assert e.id == k;
    assert data[i] == e;
  }

  /** An item is listed under some entry exactly when an item with its
      title, description and quarter is tagged with a category that has
      settings: items of unknown categories never reach the prompt. */
  lemma ListedIff(items: seq<Item>, keys: seq<string>, settings: map<string, CategorySettings>, p: PromptItem)
    requires forall k :: k in keys ==> k in settings
    requires forall k :: k in settings ==> k in keys
    ensures var data := RoadmapData(items, keys, settings);
      (exists i :: 0 <= i < |data| && p in data[i].items)
      <==> (exists x :: x in items && Project(x) == p && x.category.Ref? && x.category.id in settings)
  {
    var data := RoadmapData(items, keys, settings);
    if exists i :: 0 <= i < |data| && p in data[i].items {
      var i :| 0 <= i < |data| && p in data[i].items;
      EntryListsIff(items, settings, keys[i], p);
    }
    if exists x :: x in items && Project(x) == p && x.category.Ref? && x.category.id in settings {
      var x :| x in items && Project(x) == p && x.category.Ref? && x.category.id in settings;
      TaggedIsListed(items, keys, settings, x);
      var i := IndexOf(keys, x.category.id);
      assert 0 <= i < |data| && p in data[i].items;
    }
  }

  /** `generateReport`'s prompt: the projection, then the `prompt +=`
      loops. */
  method BuildPrompt(items: seq<Item>, keys: seq<string>, settings: map<string, CategorySettings>) returns (prompt: string)
    requires forall k :: k in keys ==> k in settings
    ensures prompt == PromptText(RoadmapData(items, keys, settings))
  {
    var data := RoadmapData(items, keys, settings);
    prompt := WritePrompt(data);
  }

  /** The category loop: the preamble, then one section per entry. */
  method WritePrompt(data: seq<PromptCategory>) returns (prompt: string)
    ensures prompt == PromptText(data)
  {
    prompt := Preamble;
    var i := 0;
    while i < |data|
      invariant 0 <= i <= |data|
      invariant prompt == Preamble + Concat(data[..i], CategoryText)
    {
      var category := data[i];
      prompt := WriteCategory(prompt, category);
      ConcatPrefixStep(Preamble, data, i, CategoryText);
      i := i + 1;
    }
    assert data[..i] == data;
  }

  /** One round of the category loop: the header, then the quarter loop. */
  method WriteCategory(before: string, category: PromptCategory) returns (prompt: string)
    ensures prompt == before + CategoryText(category)
  {
    var f := QuarterBlockOf(category.items);
    prompt := before + ("## " + category.name + "\n\n");
    ghost var head := prompt;
    var j := 0;
    while j < |Quarters|
      invariant 0 <= j <= |Quarters|
      invariant prompt == head + Concat(Quarters[..j], f)
    {
      var q := Quarters[j];
      prompt := WriteQuarter(prompt, category.items, q);
      ConcatPrefixStep(head, Quarters, j, f);
      j := j + 1;
    }
    assert Quarters[..j] == Quarters;
    AppendAssoc(before, Header(category), Concat(Quarters, f));
  }

  /** One round of the quarter loop: nothing for an empty quarter, else the
      quarter's name, the item loop and a blank line. */
  method WriteQuarter(start: string, ps: seq<PromptItem>, q: Quarter) returns (prompt: string)
    ensures prompt == start + QuarterBlock(ps, q)
  {
    prompt := start;
    var quarterItems := Filter(ps, InQuarter(q));
    if |quarterItems| > 0 {
      var quarterLine := QuarterName(q) + ":\n";
      prompt := prompt + quarterLine;
      ghost var head := prompt;
      var k := 0;
      while k < |quarterItems|
        invariant 0 <= k <= |quarterItems|
        invariant prompt == head + Concat(quarterItems[..k], ItemText)
      {
        var item := quarterItems[k];
        ghost var p0 := prompt;
        prompt := prompt + ("- " + item.title + "\n");
        if item.description != [] {
          prompt := prompt + ("  " + item.description + "\n");
          AppendAssoc(p0, "- " + item.title + "\n", "  " + item.description + "\n");
        }
        ConcatPrefixStep(head, quarterItems, k, ItemText);
        k := k + 1;
      }
      assert quarterItems[..k] == quarterItems;
      prompt := prompt + "\n";
      AppendAssoc(start, quarterLine + Concat(quarterItems, ItemText), "\n");
      AppendAssoc(start, quarterLine, Concat(quarterItems, ItemText));
    } else {
      assert start + [] == start;
    }
  }
}
