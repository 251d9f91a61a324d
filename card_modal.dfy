/** The card editor dialog: its form, the label toggle, and what it submits. */
module CardModal {
  import opened Wrappers
  import opened Text
  import opened Json
  import Seqs
  import Lib

  /** The dialog's fields. */
  datatype Form = Form(title: string, description: string, due: string, labels: seq<Json>)

  /**
   * The form opened on `initial`: a string title, description and due date are kept and
   * anything else (a missing card or field among them) gives `''`; an array of labels is
   * kept and anything else gives `[]`.
   */
  function InitialForm(initial: Option<Json>): (f: Form)
    ensures initial.None? ==> f == Form("", "", "", [])
    ensures GetOpt(initial, "title").Some? && GetOpt(initial, "title").value.JStr? ==> f.title == GetOpt(initial, "title").value.s
    ensures !(GetOpt(initial, "title").Some? && GetOpt(initial, "title").value.JStr?) ==> f.title == ""
    ensures GetOpt(initial, "description").Some? && GetOpt(initial, "description").value.JStr? ==> f.description == GetOpt(initial, "description").value.s
    ensures !(GetOpt(initial, "description").Some? && GetOpt(initial, "description").value.JStr?) ==> f.description == ""
    ensures GetOpt(initial, "due").Some? && GetOpt(initial, "due").value.JStr? ==> f.due == GetOpt(initial, "due").value.s
    ensures !(GetOpt(initial, "due").Some? && GetOpt(initial, "due").value.JStr?) ==> f.due == ""
    ensures GetOpt(initial, "labels").Some? && GetOpt(initial, "labels").value.JArr? ==> f.labels == GetOpt(initial, "labels").value.items
    ensures !(GetOpt(initial, "labels").Some? && GetOpt(initial, "labels").value.JArr?) ==> f.labels == []
  {
    Form(Lib.StringOr(GetOpt(initial, "title"), ""), Lib.StringOr(GetOpt(initial, "description"), ""),
         Lib.StringOr(GetOpt(initial, "due"), ""),
         ArrayOr(GetOpt(initial, "labels")))
  }

  /** `item => item !== color`. */
  function Other(color: Json): Json -> bool {
    (x: Json) => x != color
  }

  /** `toggleLabel(color)`: drop the colour when it is there, else add it at the end. */
  function ToggleLabel(labels: seq<Json>, color: Json): seq<Json> {
    if color in labels then Seqs.Filter(labels, Other(color)) else labels + [color]
  }

  /** A present colour is removed wherever it occurs and the rest kept in order; an absent one is appended. */
  lemma ToggleLabelSpec(labels: seq<Json>, color: Json)
    ensures var r := ToggleLabel(labels, color);
      && (color in labels ==> color !in r && Seqs.IsSubseq(r, labels)
                              && (forall x :: x in labels && x != color ==> x in r)
                              && |r| == |labels| - Seqs.CountWhere(labels, (x: Json) => x == color))
      && (color !in labels ==> r == labels + [color])
  {
    if color in labels {
      Seqs.FilterIsSubseq(labels, Other(color));
      Seqs.FilterDropsCount(labels, Other(color), (x: Json) => x == color);
      forall x | x in labels && x != color ensures x in ToggleLabel(labels, color) {
        var i :| 0 <= i < |labels| && labels[i] == x;
      }
    }
  }

  lemma {:induction false} FilterSnocDrop<T>(s: seq<T>, x: T, keep: T -> bool)
    requires !keep(x)
    ensures Seqs.Filter(s + [x], keep) == Seqs.Filter(s, keep)
  {
    if |s| == 0 {
      assert Seqs.Filter([x], keep) == [] + Seqs.Filter([x][1..], keep);
    } else {
      assert (s + [x])[1..] == s[1..] + [x];
      FilterSnocDrop(s[1..], x, keep);
    }
  }

  /** Toggling a colour that was absent twice gives back the labels as they were. */
  lemma ToggleLabelTwice(labels: seq<Json>, color: Json)
    requires color !in labels
    ensures ToggleLabel(ToggleLabel(labels, color), color) == labels
  {
    var keep := Other(color);
    FilterSnocDrop(labels, color, keep);
    Seqs.FilterKeepsAll(labels, keep);
  }

  /** Toggling keeps a label list free of duplicates, and the toggled colour occurs at most once. */
  lemma ToggleLabelNoDuplicates(labels: seq<Json>, color: Json)
    requires Seqs.NoDuplicates(labels)
    ensures Seqs.NoDuplicates(ToggleLabel(labels, color))
    ensures Seqs.CountWhere(ToggleLabel(labels, color), (x: Json) => x == color) <= 1
  {
    var r := ToggleLabel(labels, color);
    if color in labels {
      Seqs.FilterNoDuplicates(labels, Other(color));
    } else {
      forall i, j | 0 <= i < j < |r| ensures r[i] != r[j] {
        if j == |labels| {
          assert r[i] == labels[i];
        } else {
          assert r[i] == labels[i] && r[j] == labels[j];
        }
      }
    }
    UniqueCount(r, color);
  }

  lemma {:induction false} UniqueCount(s: seq<Json>, x: Json)
    requires Seqs.NoDuplicates(s)
    ensures Seqs.CountWhere(s, (y: Json) => y == x) <= 1
  {
    if |s| > 0 {
      UniqueCount(s[1..], x);
      if s[0] == x {
        AbsentCount(s[1..], x);
      }
    }
  }

  lemma {:induction false} AbsentCount(s: seq<Json>, x: Json)
    requires x !in s
    ensures Seqs.CountWhere(s, (y: Json) => y == x) == 0
  {
    if |s| > 0 {
      AbsentCount(s[1..], x);
    }
  }

  /** What the dialog submits. */
  datatype Payload = Payload(title: string, description: string, due: string, labels: seq<Json>)

  /** `submit`: nothing for a blank title, else the trimmed title with the other fields as they are. */
  function Submit(f: Form): Option<Payload> {
    if Trim(f.title) == "" then None else Some(Payload(Trim(f.title), f.description, f.due, f.labels))
  }

  lemma SubmitSpec(f: Form)
    ensures var r := Submit(f);
      && (r.None? <==> IsBlank(f.title))
      && (r.Some? ==> r.value.title == Trim(f.title) && r.value.title != "" && Trim(r.value.title) == r.value.title
                      && r.value.description == f.description && r.value.due == f.due && r.value.labels == f.labels)
  {
    TrimBlank(f.title);
    TrimIdempotent(f.title);
  }

  /** `{ ...card, ...payload }`: the card the board is updated with. */
  function EditedCard(card: map<string, Json>, p: Payload): Json {
    JObj(card["title" := JStr(p.title)]["description" := JStr(p.description)]["due" := JStr(p.due)]["labels" := JArr(p.labels)])
  }

  /** The edited card keeps the card's id, so updating the list replaces the card that was edited. */
  lemma EditedCardSpec(card: map<string, Json>, p: Payload)
    ensures var c := EditedCard(card, p);
      && Get(c, "id") == Get(JObj(card), "id")
      && Get(c, "title") == Some(JStr(p.title)) && Get(c, "labels") == Some(JArr(p.labels))
      && forall k :: k in card && k !in {"title", "description", "due", "labels"} ==> Get(c, k) == Some(card[k])
  {
  }
}
