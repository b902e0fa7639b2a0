/** Values shared by every stage of the export: options, URLs and the
    multi-lingual maps the API returns for names and roles. */
module Common {

  datatype Option<+T> = None | Some(value: T)

  type Url = string

  /** One entry of a multi-lingual map: a language code and the text in that language. */
  datatype Entry = Entry(lang: string, text: string)

  /** A multi-lingual map (a JSON object such as {"en": "Author", "nb": "Forfatter"}),
      kept as its entries in insertion order, which is the order `popitem` works by. */
  type LangMap = seq<Entry>

  function Keys(m: LangMap): set<string>
  {
    set i | 0 <= i < |m| :: m[i].lang
  }

  /** A map whose language codes are pairwise distinct, as those of a decoded JSON object are. */
  predicate UniqueKeys(m: LangMap)
  {
    forall i, j :: 0 <= i < j < |m| ==> m[i].lang != m[j].lang
  }

  /** `d[lang] = text`: replaces the text of an existing key where it stands,
      otherwise appends a new entry at the end. */
  function Insert(m: LangMap, e: Entry): (r: LangMap)
    ensures Keys(r) == Keys(m) + {e.lang}
    ensures UniqueKeys(m) ==> UniqueKeys(r)
  {
    if m == [] then
      KeysCons(e, []);
      assert [e] + [] == [e];
      [e]
    else
      KeysCons(m[0], m[1..]);
      assert m == [m[0]] + m[1..];
      if m[0].lang == e.lang then
        KeysCons(e, m[1..]);
        [e] + m[1..]
      else
        var rest := Insert(m[1..], e);
        KeysCons(m[0], rest);
        [m[0]] + rest
  }

  lemma KeysCons(x: Entry, rest: LangMap)
    ensures Keys([x] + rest) == {x.lang} + Keys(rest)
  {
    forall k | k in Keys([x] + rest) ensures k in {x.lang} + Keys(rest) {
      var i :| 0 <= i < |rest| + 1 && ([x] + rest)[i].lang == k;
      if i > 0 { assert rest[i - 1].lang == k; }
    }
    forall k | k in Keys(rest) ensures k in Keys([x] + rest) {
      var i :| 0 <= i < |rest| && rest[i].lang == k;
      assert ([x] + rest)[i + 1].lang == k;
    }
    assert ([x] + rest)[0].lang == x.lang;
  }

  /** `d.popitem()`: removes and returns the most recently inserted entry.
      None stands for the KeyError Python raises on an empty map. */
  function PopItem(m: LangMap): (r: Option<(Entry, LangMap)>)
    ensures r.None? <==> m == []
    ensures r.Some? ==> r.value.1 + [r.value.0] == m
  {
    if m == [] then None else Some((m[|m| - 1], m[..|m| - 1]))
  }

  /** Popping right after inserting a new key gives back that entry and the map as it was. */
  lemma PopItemUndoesInsert(m: LangMap, e: Entry)
    requires e.lang !in Keys(m)
    ensures PopItem(Insert(m, e)) == Some((e, m))
  {
    InsertNewKeyAppends(m, e);
  }

  lemma {:induction false} InsertNewKeyAppends(m: LangMap, e: Entry)
    requires e.lang !in Keys(m)
    ensures Insert(m, e) == m + [e]
  {
    if m != [] {
      assert m == [m[0]] + m[1..];
      KeysCons(m[0], m[1..]);
      InsertNewKeyAppends(m[1..], e);
    }
  }

  /** Popping keeps the language codes of what remains distinct. */
  lemma PopItemKeepsUniqueKeys(m: LangMap)
    requires UniqueKeys(m) && m != []
    ensures UniqueKeys(PopItem(m).value.1)
    ensures PopItem(m).value.0.lang !in Keys(PopItem(m).value.1)
  {
  }
}
