/** `parse_forms_key_values`: the FORMS fallback. Every KEY block of a page
    yields a key text and a value text rebuilt from the WORD and selection
    blocks they point at; keys are normalised and a key's stored value is
    replaced only while it is empty. */
module FormsMap {
  import opened Common

  /** One relationship of a block: its type ("CHILD", "VALUE", ...) and the
      ids it points at. */
  datatype Relationship = Relationship(relType: string, ids: seq<string>)

  /** One Textract block. A missing `Id` is `None`; a missing type, text or
      selection status is the empty string. */
  datatype Block = Block(
    id: Option<string>,
    blockType: string,
    text: string,
    selectionStatus: string,
    entityTypes: seq<string>,
    relationships: seq<Relationship>)

  /** `{}`, what `id_map.get(i, {})` returns for an unknown id. */
  const NoBlock := Block(None, "", "", "", [], [])

  /** `{b["Id"]: b for b in blocks if "Id" in b}`: the last block with a
      given id wins. */
  function IdMap(blocks: seq<Block>): (m: map<string, Block>)
    ensures forall i :: 0 <= i < |blocks| && blocks[i].id.Some? ==> blocks[i].id.value in m
    ensures forall k :: k in m ==> m[k].id == Some(k)
    ensures forall k :: k in m ==> m[k] in blocks
  {
    if blocks == [] then map[]
    else
      var b := blocks[|blocks| - 1];
      var m := IdMap(blocks[..|blocks| - 1]);
      assert forall i :: 0 <= i < |blocks| - 1 ==> blocks[i] == blocks[..|blocks| - 1][i];
      assert forall x :: x in blocks[..|blocks| - 1] ==> x in blocks;
      if b.id.Some? then m[b.id.value := b] else m
  }

  /** The block a later block with an id overrides is never found again. */
  lemma {:induction false} IdMapLastWins(blocks: seq<Block>, i: nat)
    requires i < |blocks| && blocks[i].id.Some?
    requires forall j :: i < j < |blocks| ==> blocks[j].id != blocks[i].id
    ensures IdMap(blocks)[blocks[i].id.value] == blocks[i]
  {
    if i < |blocks| - 1 {
      IdMapLastWins(blocks[..|blocks| - 1], i);
    }
  }

  function Lookup(m: map<string, Block>, id: string): Block {
    if id in m then m[id] else NoBlock
  }

  /** The ids of every relationship of type `relType`, in order. */
  function RelIds(rels: seq<Relationship>, relType: string): seq<string> {
    if rels == [] then []
    else
      var r := rels[|rels| - 1];
      RelIds(rels[..|rels| - 1], relType) + (if r.relType == relType then r.ids else [])
  }

  lemma RelIdsSnoc(rels: seq<Relationship>, r: Relationship, relType: string)
    ensures RelIds(rels + [r], relType) == RelIds(rels, relType) + (if r.relType == relType then r.ids else [])
  {
    assert (rels + [r])[..|rels|] == rels;
  }

  // ---------------------------------------------------- block text

  /** What a child block contributes to its parent's text: a WORD its text,
      a SELECTED selection element an "X", anything else nothing. */
  function Part(child: Block): (r: Option<string>)
    ensures r.Some? <==> child.blockType == "WORD"
                         || (child.blockType == "SELECTION_ELEMENT" && child.selectionStatus == "SELECTED")
    ensures r.Some? && child.blockType == "WORD" ==> r.value == child.text
    ensures r.Some? && child.blockType != "WORD" ==> r.value == "X"
  {
    if child.blockType == "WORD" then Some(child.text)
    else if child.blockType == "SELECTION_ELEMENT" && child.selectionStatus == "SELECTED" then Some("X")
    else None
  }

  function PartOf(m: map<string, Block>): string -> Option<string> {
    id => Part(Lookup(m, id))
  }

  predicate NonEmpty(s: string) {
    s != ""
  }

  /** `" ".join(parts)`. */
  function JoinSpace(parts: seq<string>): (r: string)
    ensures parts == [] ==> r == ""
    ensures parts != [] && parts[|parts| - 1] != "" ==> r != ""
  {
    if parts == [] then ""
    else if |parts| == 1 then parts[0]
    else JoinSpace(parts[..|parts| - 1]) + " " + parts[|parts| - 1]
  }

  /** The non-empty parts of a block's CHILD blocks, in order. */
  function Parts(b: Block, m: map<string, Block>): seq<string> {
    Filter(NonEmpty, FilterMap(PartOf(m), RelIds(b.relationships, "CHILD")))
  }

  /** `_get_text_from_block`. */
  function BlockText(b: Block, m: map<string, Block>): (r: string)
    ensures r == [] || (!IsSpace(r[0]) && !IsSpace(r[|r| - 1]))
  {
    Strip(JoinSpace(Parts(b, m)))
  }

  /** Every part of a block's text is the text of one of its WORD children
      or the "X" of one of its SELECTED selection elements, and a block
      none of whose children is such a block has the empty text. */
  lemma BlockTextFromWordsAndMarks(b: Block, m: map<string, Block>)
    ensures forall j :: 0 <= j < |Parts(b, m)| ==>
      (exists id :: id in RelIds(b.relationships, "CHILD") &&
        ((Lookup(m, id).blockType == "WORD" && Lookup(m, id).text == Parts(b, m)[j])
         || (Lookup(m, id).blockType == "SELECTION_ELEMENT" && Lookup(m, id).selectionStatus == "SELECTED"
             && Parts(b, m)[j] == "X")))
    ensures (forall id :: id in RelIds(b.relationships, "CHILD") ==> Part(Lookup(m, id)).None?) ==> BlockText(b, m) == ""
  {
    var ids := RelIds(b.relationships, "CHILD");
    var picked := FilterMap(PartOf(m), ids);
    FilterMapSelects(PartOf(m), ids);
    var ks := KeptIndices(PartOf(m), ids);
    forall j | 0 <= j < |Parts(b, m)|
      ensures exists id :: (id in ids &&
        ((Lookup(m, id).blockType == "WORD" && Lookup(m, id).text == Parts(b, m)[j])
         || (Lookup(m, id).blockType == "SELECTION_ELEMENT" && Lookup(m, id).selectionStatus == "SELECTED"
             && Parts(b, m)[j] == "X")))
    {
      var p := Parts(b, m)[j];
      assert p in picked;
      var t :| 0 <= t < |picked| && picked[t] == p;
      var id := ids[ks[t]];
      assert Part(Lookup(m, id)) == Some(p);
      assert id in ids;
    }
    if picked != [] {
      var id := ids[ks[0]];
      assert id in ids && Part(Lookup(m, id)).Some?;
    } else {
      assert Parts(b, m) == [];
      assert JoinSpace([]) == "";
    }
  }

  /** Conversely, every WORD child with a non-empty text and every SELECTED
      selection element contributes its part to the block's text. */
  lemma EveryMarkedChildContributes(b: Block, m: map<string, Block>)
    ensures forall id :: id in RelIds(b.relationships, "CHILD") && Part(Lookup(m, id)).Some? && Part(Lookup(m, id)).value != ""
                         ==> Part(Lookup(m, id)).value in Parts(b, m)
  {
    var ids := RelIds(b.relationships, "CHILD");
    var picked := FilterMap(PartOf(m), ids);
    FilterMapMembers(PartOf(m), ids);
    forall id | id in ids && Part(Lookup(m, id)).Some? && Part(Lookup(m, id)).value != ""
      ensures Part(Lookup(m, id)).value in Parts(b, m)
    {
      var t := Part(Lookup(m, id)).value;
      assert PartOf(m)(id) == Some(t);
      assert t in picked;
      var j :| 0 <= j < |picked| && picked[j] == t;
      assert NonEmpty(picked[j]);
    }
  }

  // ---------------------------------------------------- value text

  /** `value_txt = text or value_txt` over `texts`: the last non-empty one. */
  function LastNonEmpty(texts: seq<string>): (r: string)
    ensures r == "" <==> forall i :: 0 <= i < |texts| ==> texts[i] == ""
    ensures forall i :: (0 <= i < |texts| && texts[i] != "" && (forall j :: i < j < |texts| ==> texts[j] == ""))
                        ==> r == texts[i]
  {
    if texts == [] then ""
    else if texts[|texts| - 1] != "" then texts[|texts| - 1]
    else
      var init := texts[..|texts| - 1];
      assert forall i :: 0 <= i < |texts| - 1 ==> texts[i] == init[i];
      LastNonEmpty(init)
  }

  function TextOf(m: map<string, Block>): string -> string {
    id => BlockText(Lookup(m, id), m)
  }

  /** The value text of a KEY block: the last non-empty text among the
      blocks its VALUE relationships point at. */
  function ValueText(b: Block, m: map<string, Block>): string {
    LastNonEmpty(MapSeq(TextOf(m), RelIds(b.relationships, "VALUE")))
  }

  lemma LastNonEmptySnoc(texts: seq<string>, t: string)
    ensures LastNonEmpty(texts + [t]) == if t != "" then t else LastNonEmpty(texts)
  {
    assert (texts + [t])[..|texts|] == texts;
  }

  /** One more id scanned: its text replaces the value when it is not empty. */
  lemma ScanValueStep<T>(text: T -> string, done: seq<T>, ids: seq<T>, k: nat)
    requires k < |ids|
    ensures LastNonEmpty(MapSeq(text, done + ids[..k + 1]))
              == if text(ids[k]) != "" then text(ids[k]) else LastNonEmpty(MapSeq(text, done + ids[..k]))
  {
    AppendPrefixSnoc(done, ids, k);
    MapSeqSnoc(text, done + ids[..k], ids[k]);
    LastNonEmptySnoc(MapSeq(text, done + ids[..k]), text(ids[k]));
  }

  /** The inner loop over the ids of one VALUE relationship; `text` is
      `_get_text_from_block` of the block an id names. */
  method ScanValueIds<T>(text: T -> string, ids: seq<T>, ghost done: seq<T>, value0: string)
    returns (valueTxt: string)
    requires value0 == LastNonEmpty(MapSeq(text, done))
    ensures valueTxt == LastNonEmpty(MapSeq(text, done + ids))
  {
    valueTxt := value0;
    assert done + ids[..0] == done;
    for k := 0 to |ids|
      invariant valueTxt == LastNonEmpty(MapSeq(text, done + ids[..k]))
    {
      ScanValueStep(text, done, ids, k);
      var t := text(ids[k]);
      if t != "" {
        valueTxt := t;
      }
    }
    assert ids[..|ids|] == ids;
  }

  /** One VALUE relationship's ids scanned; any other relationship skipped. */
  method ScanRelationship(m: map<string, Block>, rels: seq<Relationship>, r: nat, value0: string)
    returns (valueTxt: string)
    requires r < |rels|
    requires value0 == LastNonEmpty(MapSeq(TextOf(m), RelIds(rels[..r], "VALUE")))
    ensures valueTxt == LastNonEmpty(MapSeq(TextOf(m), RelIds(rels[..r + 1], "VALUE")))
  {
    ghost var before := RelIds(rels[..r], "VALUE");
    TakeSnoc(rels, r);
    RelIdsSnoc(rels[..r], rels[r], "VALUE");
    valueTxt := value0;
    if rels[r].relType == "VALUE" {
      assert RelIds(rels[..r + 1], "VALUE") == before + rels[r].ids;
      valueTxt := ScanValueIds(TextOf(m), rels[r].ids, before, valueTxt);
    } else {
      assert RelIds(rels[..r + 1], "VALUE") == before;
    }
  }

  /** The loop over the VALUE relationships and their ids. */
  method CollectValueText(b: Block, m: map<string, Block>) returns (valueTxt: string)
    ensures valueTxt == ValueText(b, m)
  {
    valueTxt := "";
    var rels := b.relationships;
    for r := 0 to |rels|
      invariant valueTxt == LastNonEmpty(MapSeq(TextOf(m), RelIds(rels[..r], "VALUE")))
    {
      valueTxt := ScanRelationship(m, rels, r, valueTxt);
    }
    assert rels[..|rels|] == rels;
  }

  // ---------------------------------------------------- the map

  /** `b.get("BlockType") == "KEY_VALUE_SET" and "KEY" in b.get("EntityTypes")`. */
  predicate IsKeyBlock(b: Block) {
    b.blockType == "KEY_VALUE_SET" && "KEY" in b.entityTypes
  }

  /** `(key_txt or "").strip().lower()`. */
  function KeyNorm(keyText: string): string {
    Lower(Strip(keyText))
  }

  /** `if key_norm: if key_norm not in kv or not kv[key_norm]: kv[key_norm] = val_norm`. */
  function Store(kv: OrderedDict<string>, key: string, value: string): (r: OrderedDict<string>)
    requires kv.Valid()
    ensures r.Valid()
    ensures key != "" && (key !in kv.values || kv.values[key] == "") ==> key in r.values && r.values[key] == value
    ensures key == "" || (key in kv.values && kv.values[key] != "") ==> r == kv
    ensures forall k :: k in kv.values && k != key ==> k in r.values && r.values[k] == kv.values[k]
    ensures forall k :: k in r.values ==> k in kv.values || k == key
    ensures r.keys == if key != "" && key !in kv.values then kv.keys + [key] else kv.keys
  {
    if key != "" && (key !in kv.values || kv.values[key] == "") then kv.Put(key, value) else kv
  }

  /** What a KEY block offers the map: its normalised key and stripped value. */
  datatype KeyValue = KeyValue(key: string, value: string)

  /** The pair a block offers; nothing unless it is a KEY block. */
  function EntryOf(m: map<string, Block>): Block -> Option<KeyValue> {
    b => if IsKeyBlock(b) then Some(KeyValue(KeyNorm(BlockText(b, m)), Strip(ValueText(b, m)))) else None
  }

  /** Only a KEY block offers a pair, and its key is the normalised key text. */
  lemma EntryOfKeyBlock(m: map<string, Block>, b: Block)
    ensures EntryOf(m)(b).Some? <==> IsKeyBlock(b)
    ensures EntryOf(m)(b).Some? ==> EntryOf(m)(b).value.key == KeyNorm(BlockText(b, m))
  {
  }

  /** Storing an offered pair, if any. */
  function StoreEntry(kv: OrderedDict<string>, e: Option<KeyValue>): (r: OrderedDict<string>)
    requires kv.Valid()
    ensures r.Valid()
  {
    if e.Some? then Store(kv, e.value.key, e.value.value) else kv
  }

  /** One block of the inner loop: a KEY block stores its normalised key
      and stripped value. */
  function AddBlock(kv: OrderedDict<string>, m: map<string, Block>, b: Block): (r: OrderedDict<string>)
    requires kv.Valid()
    ensures r.Valid()
  {
    StoreEntry(kv, EntryOf(m)(b))
  }

  /** Storing the pair that `f` offers for each element in turn. */
  function StoreVia<T>(kv: OrderedDict<string>, f: T -> Option<KeyValue>, xs: seq<T>): (r: OrderedDict<string>)
    requires kv.Valid()
    ensures r.Valid()
  {
    if xs == [] then kv else StoreEntry(StoreVia(kv, f, xs[..|xs| - 1]), f(xs[|xs| - 1]))
  }

  /** The inner loop over the blocks of one page. */
  function AddBlocks(kv: OrderedDict<string>, m: map<string, Block>, blocks: seq<Block>): (r: OrderedDict<string>)
    requires kv.Valid()
    ensures r.Valid()
  {
    StoreVia(kv, EntryOf(m), blocks)
  }

  /** The map built from the pages, each page with its own id map. */
  function FormsKeyValues(pages: seq<seq<Block>>): (r: OrderedDict<string>)
    ensures r.Valid()
  {
    if pages == [] then EmptyDict()
    else
      var page := pages[|pages| - 1];
      AddBlocks(FormsKeyValues(pages[..|pages| - 1]), IdMap(page), page)
  }

  predicate Stripped(s: string) {
    Strip(s) == s
  }

  /** A normalised key: not empty, already lower-case and stripped. */
  predicate NormalKey(k: string) {
    k != "" && Lower(k) == k && Stripped(k)
  }

  /** A normalised key with a stripped value. */
  predicate NormalEntry(k: string, v: string) {
    NormalKey(k) && Stripped(v)
  }

  /** Every key of the map is normalised and every value stripped. */
  ghost predicate WellFormedMap(kv: OrderedDict<string>) {
    kv.Valid() && AllEntries(kv, NormalEntry)
  }

  /** `r` grew from `kv`: the keys of `kv` keep their order at the front of
      `r`, and every non-empty value of `kv` is still there. */
  ghost predicate Grows(kv: OrderedDict<string>, r: OrderedDict<string>) {
    kv.keys <= r.keys
    && forall k :: k in kv.values && kv.values[k] != "" ==> k in r.values && r.values[k] == kv.values[k]
  }

  lemma GrowsTransitive(a: OrderedDict<string>, b: OrderedDict<string>, c: OrderedDict<string>)
    requires Grows(a, b) && Grows(b, c)
    ensures Grows(a, c)
  {
  }

  /** Lower-casing changes no whitespace and is idempotent. */
  lemma LowerFacts(s: string)
    ensures forall i :: 0 <= i < |s| ==> (IsSpace(Lower(s)[i]) <==> IsSpace(s[i]))
    ensures Lower(Lower(s)) == Lower(s)
  {
  }

  /** A non-empty result of `KeyNorm` is a normalised key. */
  lemma KeyNormIsNormal(keyText: string)
    requires KeyNorm(keyText) != ""
    ensures NormalKey(KeyNorm(keyText))
  {
    var s := Strip(keyText);
    LowerFacts(s);
    StripNoOp(Lower(s));
  }

  /** Storing only grows the map: a key is appended at most, and only an
      empty value is ever replaced. */
  lemma StoreGrows(kv: OrderedDict<string>, key: string, value: string)
    requires kv.Valid()
    ensures Grows(kv, Store(kv, key, value))
  {
    if key != "" && (key !in kv.values || kv.values[key] == "") {
      var r := kv.Put(key, value);
      forall k | k in kv.values && kv.values[k] != ""
        ensures k in r.values && r.values[k] == kv.values[k]
      {
        assert k != key;
      }
    }
  }

  /** Storing a normalised key and a stripped value keeps the map well formed. */
  lemma StoreWellFormed(kv: OrderedDict<string>, key: string, value: string)
    requires WellFormedMap(kv)
    requires key != "" ==> NormalEntry(key, value)
    ensures WellFormedMap(Store(kv, key, value))
  {
    if key != "" && (key !in kv.values || kv.values[key] == "") {
      PutKeepsAllEntries(kv, key, value, NormalEntry);
    }
  }

  /** What one block does to the map: keys are only appended, every key is
      normalised and every value stripped, and a non-empty stored value is
      never replaced. */
  lemma AddBlockKeeps(kv: OrderedDict<string>, m: map<string, Block>, b: Block)
    requires WellFormedMap(kv)
    ensures WellFormedMap(AddBlock(kv, m, b)) && Grows(kv, AddBlock(kv, m, b))
  {
    if IsKeyBlock(b) {
      var key := KeyNorm(BlockText(b, m));
      var value := Strip(ValueText(b, m));
      if key != "" {
        KeyNormIsNormal(BlockText(b, m));
      }
      StripIdempotent(ValueText(b, m));
      StoreGrows(kv, key, value);
      StoreWellFormed(kv, key, value);
    }
  }

  /** The same over any number of blocks. */
  lemma {:induction false} AddBlocksKeeps(kv: OrderedDict<string>, m: map<string, Block>, blocks: seq<Block>)
    requires WellFormedMap(kv)
    ensures WellFormedMap(AddBlocks(kv, m, blocks)) && Grows(kv, AddBlocks(kv, m, blocks))
  {
    if blocks != [] {
      var mid := AddBlocks(kv, m, blocks[..|blocks| - 1]);
      AddBlocksKeeps(kv, m, blocks[..|blocks| - 1]);
      AddBlockKeeps(mid, m, blocks[|blocks| - 1]);
      assert AddBlocks(kv, m, blocks) == AddBlock(mid, m, blocks[|blocks| - 1]);
      GrowsTransitive(kv, mid, AddBlocks(kv, m, blocks));
    }
  }

  /** Over the pages: every key is normalised and every value stripped, and
      the map built from the first `n` pages grows into the whole map: its
      keys keep their first-insertion order and its non-empty values stay. */
  lemma {:induction false} FormsKeyValuesWellFormed(pages: seq<seq<Block>>, n: nat)
    requires n <= |pages|
    ensures WellFormedMap(FormsKeyValues(pages))
    ensures Grows(FormsKeyValues(pages[..n]), FormsKeyValues(pages))
  {
    if pages == [] {
      assert pages[..n] == pages;
    } else {
      var init := pages[..|pages| - 1];
      var page := pages[|pages| - 1];
      if n == |pages| {
        assert pages[..n] == pages;
        FormsKeyValuesWellFormed(init, 0);
        AddBlocksKeeps(FormsKeyValues(init), IdMap(page), page);
      } else {
        assert init[..n] == pages[..n];
        FormsKeyValuesWellFormed(init, n);
        AddBlocksKeeps(FormsKeyValues(init), IdMap(page), page);
        GrowsTransitive(FormsKeyValues(pages[..n]), FormsKeyValues(init), FormsKeyValues(pages));
      }
    }
  }

  // ---------------------------------------------------- the map as a fold

  /** The pair each block of a page offers, with that page's id map. */
  function PageEntryOf(): seq<Block> -> Block -> Option<KeyValue> {
    page => EntryOf(IdMap(page))
  }

  /** The pairs of every KEY block of every page, in page and block order. */
  function KeyEntries(pages: seq<seq<Block>>): seq<KeyValue> {
    Gather(PageEntryOf(), pages)
  }

  /** `Store` applied to each pair in turn. */
  function StoreAll(kv: OrderedDict<string>, es: seq<KeyValue>): (r: OrderedDict<string>)
    requires kv.Valid()
    ensures r.Valid()
  {
    if es == [] then kv
    else
      var e := es[|es| - 1];
      Store(StoreAll(kv, es[..|es| - 1]), e.key, e.value)
  }

  /** The non-empty keys of `es`, in order, repeats included. */
  function NonEmptyKeys(es: seq<KeyValue>): seq<string> {
    if es == [] then []
    else NonEmptyKeys(es[..|es| - 1]) + (if es[|es| - 1].key != "" then [es[|es| - 1].key] else [])
  }

  lemma {:induction false} StoreAllAppend(kv: OrderedDict<string>, a: seq<KeyValue>, b: seq<KeyValue>)
    requires kv.Valid()
    ensures StoreAll(kv, a + b) == StoreAll(StoreAll(kv, a), b)
  {
    if b == [] {
      assert a + b == a;
    } else {
      var init := b[..|b| - 1];
      StoreAllAppend(kv, a, init);
      assert (a + b)[..|a + b| - 1] == a + init;
    }
  }

  /** Storing what `f` offers for each element is storing the offered pairs. */
  lemma {:induction false} StoreViaIsStoreAll<T>(kv: OrderedDict<string>, f: T -> Option<KeyValue>, xs: seq<T>)
    requires kv.Valid()
    ensures StoreVia(kv, f, xs) == StoreAll(kv, FilterMap(f, xs))
  {
    if xs != [] {
      var init, x := xs[..|xs| - 1], xs[|xs| - 1];
      StoreViaIsStoreAll(kv, f, init);
      var es := FilterMap(f, init);
      if f(x).Some? {
        assert FilterMap(f, xs) == es + [f(x).value];
        assert (es + [f(x).value])[..|es|] == es;
      } else {
        assert FilterMap(f, xs) == es;
      }
    }
  }

  /** The forms map is the pairs of every KEY block stored in page and block order. */
  lemma {:induction false} FormsKeyValuesIsStoreAll(pages: seq<seq<Block>>)
    ensures FormsKeyValues(pages) == StoreAll(EmptyDict(), KeyEntries(pages))
  {
    if pages != [] {
      var init, page := pages[..|pages| - 1], pages[|pages| - 1];
      FormsKeyValuesIsStoreAll(init);
      StoreViaIsStoreAll(FormsKeyValues(init), EntryOf(IdMap(page)), page);
      assert KeyEntries(pages) == KeyEntries(init) + FilterMap(EntryOf(IdMap(page)), page);
      StoreAllAppend(EmptyDict(), KeyEntries(init), FilterMap(EntryOf(IdMap(page)), page));
    }
  }

  /** The keys of the map are the non-empty keys offered, in the order they
      were first offered. */
  lemma {:induction false} StoreAllKeys(es: seq<KeyValue>)
    ensures StoreAll(EmptyDict(), es).keys == Dedup(NonEmptyKeys(es))
  {
    if es != [] {
      var init, e := es[..|es| - 1], es[|es| - 1];
      StoreAllKeys(init);
      var r0 := StoreAll(EmptyDict(), init);
      assert StoreAll(EmptyDict(), es) == Store(r0, e.key, e.value);
      if e.key != "" {
        assert NonEmptyKeys(es) == NonEmptyKeys(init) + [e.key];
        DedupSnoc(NonEmptyKeys(init), e.key);
        assert e.key in r0.values <==> e.key in r0.keys;
      } else {
        assert NonEmptyKeys(es) == NonEmptyKeys(init);
      }
    }
  }

  /** A pair offers `k` in `es` when it does in all but the last pair, or the last one does. */
  lemma OfferedSnoc(es: seq<KeyValue>, k: string)
    requires es != []
    ensures Offered(es, k) <==> Offered(es[..|es| - 1], k) || es[|es| - 1].key == k
  {
    var init := es[..|es| - 1];
    if Offered(init, k) {
      var i :| 0 <= i < |init| && init[i].key == k;
      assert es[i].key == k;
    }
    if Offered(es, k) && es[|es| - 1].key != k {
      var i :| 0 <= i < |es| && es[i].key == k;
      assert init[i].key == k;
    }
  }

  /** A key is in the map exactly when some pair offers it and it is not empty. */
  lemma {:induction false} StoreAllHasKey(es: seq<KeyValue>)
    ensures forall k :: k in StoreAll(EmptyDict(), es).values <==> k != "" && Offered(es, k)
  {
    if es != [] {
      var init, e := es[..|es| - 1], es[|es| - 1];
      StoreAllHasKey(init);
      var r0 := StoreAll(EmptyDict(), init);
      var r := StoreAll(EmptyDict(), es);
      assert r == Store(r0, e.key, e.value);
      forall k
        ensures k in r.values <==> k != "" && Offered(es, k)
      {
        OfferedSnoc(es, k);
        if k != e.key {
          assert k in r.values <==> k in r0.values;
        } else if k == "" {
          assert r == r0;
        }
      }
    }
  }

  /** The first non-empty value offered for `k`; the empty string when
      there is none. */
  function FirstFilled(es: seq<KeyValue>, k: string): string {
    if es == [] then ""
    else
      var f := FirstFilled(es[..|es| - 1], k);
      if f == "" && es[|es| - 1].key == k then es[|es| - 1].value else f
  }

  /** `FirstFilled` is the value of the earliest pair for `k` whose value is
      not empty, and empty exactly when every value offered for `k` is. */
  lemma {:induction false} FirstFilledIsFirst(es: seq<KeyValue>, k: string)
    ensures FirstFilled(es, k) == "" <==> forall i :: 0 <= i < |es| && es[i].key == k ==> es[i].value == ""
    ensures forall i :: (0 <= i < |es| && es[i].key == k && es[i].value != ""
                         && (forall j :: 0 <= j < i && es[j].key == k ==> es[j].value == ""))
                        ==> FirstFilled(es, k) == es[i].value
  {
    if es != [] {
      var init := es[..|es| - 1];
      FirstFilledIsFirst(init, k);
      assert forall i :: 0 <= i < |init| ==> init[i] == es[i];
    }
  }

  /** A stored key holds the first non-empty value offered for it; a
      non-empty key that is not stored was offered no non-empty value. */
  lemma {:induction false} StoreAllValues(es: seq<KeyValue>)
    ensures forall k :: k in StoreAll(EmptyDict(), es).values ==> StoreAll(EmptyDict(), es).values[k] == FirstFilled(es, k)
    ensures forall k :: k != "" && k !in StoreAll(EmptyDict(), es).values ==> FirstFilled(es, k) == ""
  {
    if es != [] {
      var init, e := es[..|es| - 1], es[|es| - 1];
      StoreAllValues(init);
      var r0 := StoreAll(EmptyDict(), init);
      var r := StoreAll(EmptyDict(), es);
      assert r == Store(r0, e.key, e.value);
      StoreAllHasKey(init);
      assert "" !in r0.values;
      forall k
        ensures k in r.values ==> r.values[k] == FirstFilled(es, k)
        ensures k != "" && k !in r.values ==> FirstFilled(es, k) == ""
      {
        var f := FirstFilled(init, k);
        assert FirstFilled(es, k) == if f == "" && e.key == k then e.value else f;
        if k != e.key {
          assert k in r.values <==> k in r0.values;
        } else if k != "" {
          if k !in r0.values {
            assert f == "";
          } else if r0.values[k] == "" {
            assert f == "";
          } else {
            assert r == r0;
          }
        }
      }
    }
  }

  /** Every pair comes from a KEY block of some page, and every KEY block of
      every page offers its pair. */
  lemma KeyEntriesAreKeyBlocks(pages: seq<seq<Block>>)
    ensures forall e :: e in KeyEntries(pages) ==>
      exists p, b :: 0 <= p < |pages| && b in pages[p] && EntryOf(IdMap(pages[p]))(b) == Some(e)
    ensures forall p, b :: 0 <= p < |pages| && b in pages[p] && IsKeyBlock(b) ==>
      EntryOf(IdMap(pages[p]))(b).value in KeyEntries(pages)
  {
    GatherMembers(PageEntryOf(), pages);
  }

  /** `parse_forms_key_values` in terms of the pairs offered in page and
      block order: the keys are the non-empty keys offered, in the order
      they first appear, and a key's value is the first non-empty value
      offered for it (`FirstFilled`), or the empty string when there is none. */
  lemma FormsKeyValuesSpec(pages: seq<seq<Block>>)
    ensures var kv := FormsKeyValues(pages);
      var es := KeyEntries(pages);
      && kv.keys == Dedup(NonEmptyKeys(es))
      && (forall k :: k in kv.values <==> k != "" && Offered(es, k))
      && (forall k :: k in kv.values ==> kv.values[k] == FirstFilled(es, k))
  {
    var es := KeyEntries(pages);
    FormsKeyValuesIsStoreAll(pages);
    StoreAllKeys(es);
    StoreAllHasKey(es);
    StoreAllValues(es);
  }

  /** Some pair of `es` has the key `k`. */
  predicate Offered(es: seq<KeyValue>, k: string) {
    exists i :: 0 <= i < |es| && es[i].key == k
  }

  /** A key is offered by some gathered pair exactly when `f` offers a pair
      with that key for some element of some inner list. */
  lemma GatheredKeys<T>(f: seq<T> -> T -> Option<KeyValue>, xss: seq<seq<T>>)
    ensures forall k :: Offered(Gather(f, xss), k) <==>
      exists p, x :: 0 <= p < |xss| && x in xss[p] && f(xss[p])(x).Some? && f(xss[p])(x).value.key == k
  {
    var es := Gather(f, xss);
    GatherMembers(f, xss);
    forall k
      ensures Offered(es, k) <==>
        exists p, x :: 0 <= p < |xss| && x in xss[p] && f(xss[p])(x).Some? && f(xss[p])(x).value.key == k
    {
      if Offered(es, k) {
        var i :| 0 <= i < |es| && es[i].key == k;
        assert es[i] in es;
        var p, x :| 0 <= p < |xss| && x in xss[p] && f(xss[p])(x) == Some(es[i]);
      }
      if exists p, x :: 0 <= p < |xss| && x in xss[p] && f(xss[p])(x).Some? && f(xss[p])(x).value.key == k {
        var p, x :| 0 <= p < |xss| && x in xss[p] && f(xss[p])(x).Some? && f(xss[p])(x).value.key == k;
        var i :| 0 <= i < |es| && es[i] == f(xss[p])(x).value;
      }
    }
  }

  /** A key is in the forms map exactly when some block of some page offers
      a pair with that key, that is, when some KEY block has it as its
      normalised key text, and it is not empty. */
  lemma FormsKeysAreKeyBlockKeys(pages: seq<seq<Block>>)
    ensures forall k :: k in FormsKeyValues(pages).values <==>
      k != "" && exists p, b :: 0 <= p < |pages| && b in pages[p]
                                 && PageEntryOf()(pages[p])(b).Some? && PageEntryOf()(pages[p])(b).value.key == k
  {
    FormsKeyValuesIsStoreAll(pages);
    StoreAllHasKey(KeyEntries(pages));
    GatheredKeys(PageEntryOf(), pages);
  }

  /** Every KEY block whose normalised key text is not empty has its key stored. */
  lemma KeyBlockKeyIsStored(pages: seq<seq<Block>>, p: nat, b: Block)
    requires p < |pages| && b in pages[p] && IsKeyBlock(b)
    requires KeyNorm(BlockText(b, IdMap(pages[p]))) != ""
    ensures KeyNorm(BlockText(b, IdMap(pages[p]))) in FormsKeyValues(pages).values
  {
    FormsKeysAreKeyBlockKeys(pages);
    assert PageEntryOf()(pages[p])(b).value.key == KeyNorm(BlockText(b, IdMap(pages[p])));
  }

  /** Every stored key is the normalised key text of some KEY block. */
  lemma StoredKeyIsKeyBlockKey(pages: seq<seq<Block>>, k: string)
    requires k in FormsKeyValues(pages).values
    ensures exists p, b :: 0 <= p < |pages| && b in pages[p] && IsKeyBlock(b) && KeyNorm(BlockText(b, IdMap(pages[p]))) == k
  {
    assert exists p, b :: 0 <= p < |pages| && b in pages[p]
                          && PageEntryOf()(pages[p])(b).Some? && PageEntryOf()(pages[p])(b).value.key == k by {
      FormsKeysAreKeyBlockKeys(pages);
    }
    var p, b :| 0 <= p < |pages| && b in pages[p]
                && PageEntryOf()(pages[p])(b).Some? && PageEntryOf()(pages[p])(b).value.key == k;
    EntryOfKeyBlock(IdMap(pages[p]), b);
  }

  // ---------------------------------------------------- the loops

  /** The dict comprehension that builds a page's id map. */
  method BuildIdMap(blocks: seq<Block>) returns (m: map<string, Block>)
    ensures m == IdMap(blocks)
  {
    m := map[];
    for i := 0 to |blocks|
      invariant m == IdMap(blocks[..i])
    {
      assert blocks[..i + 1][..i] == blocks[..i];
      if blocks[i].id.Some? {
        m := m[blocks[i].id.value := blocks[i]];
      }
    }
    assert blocks[..|blocks|] == blocks;
  }

  /** The body of the inner loop for one block. */
  method AddKeyBlock(kv0: OrderedDict<string>, m: map<string, Block>, b: Block) returns (kv: OrderedDict<string>)
    requires kv0.Valid()
    ensures kv == AddBlock(kv0, m, b)
  {
    kv := kv0;
    if IsKeyBlock(b) {
      var keyTxt := BlockText(b, m);
      var valueTxt := CollectValueText(b, m);
      var keyNorm := Lower(Strip(keyTxt));
      var valNorm := Strip(valueTxt);
      if keyNorm != "" {
        if keyNorm !in kv.values || kv.values[keyNorm] == "" {
          kv := kv.Put(keyNorm, valNorm);
        }
      }
    }
  }

  /** The inner loop of `parse_forms_key_values` over one page. */
  method AddPage(kv0: OrderedDict<string>, blocks: seq<Block>) returns (kv: OrderedDict<string>)
    requires kv0.Valid()
    ensures kv.Valid() && kv == AddBlocks(kv0, IdMap(blocks), blocks)
  {
    var m := BuildIdMap(blocks);
    kv := kv0;
    for i := 0 to |blocks|
      invariant kv.Valid() && kv == AddBlocks(kv0, m, blocks[..i])
    {
      assert blocks[..i + 1][..i] == blocks[..i];
      kv := AddKeyBlock(kv, m, blocks[i]);
    }
    assert blocks[..|blocks|] == blocks;
  }

  /** `parse_forms_key_values`. */
  method ParseFormsKeyValues(pages: seq<seq<Block>>) returns (kv: OrderedDict<string>)
    ensures kv == FormsKeyValues(pages)
  {
    kv := EmptyDict();
    for p := 0 to |pages|
      invariant kv.Valid() && kv == FormsKeyValues(pages[..p])
    {
      assert pages[..p + 1][..p] == pages[..p];
      kv := AddPage(kv, pages[p]);
    }
    assert pages[..|pages|] == pages;
  }
}
