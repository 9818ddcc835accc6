/** The overdue-document alert of the reminder page (pages/Reminder.py:29-32). */
module Reminder {

  /** The status of a document whose work is finished ("completed"). */
  const Done: string := "Hoàn thành"

  /** A stored document (models.py:58-66). The deadline is a calendar date,
      written as a day number so that earlier dates are smaller numbers. */
  datatype Document = Document(
    id: nat,
    name: string,
    departmentId: nat,
    deadline: int,
    status: string)

  /** A document is late when its deadline has passed and it is not finished. */
  predicate IsLate(d: Document, today: int) {
    d.deadline < today && d.status != Done
  }

  /** `s` is `t` with some of its elements left out, the rest kept in order. */
  predicate IsSubsequence<T(==)>(s: seq<T>, t: seq<T>)
    decreases |t|
  {
    if s == [] then true
    else if t == [] then false
    else if s[0] == t[0] then IsSubsequence(s[1..], t[1..])
    else IsSubsequence(s, t[1..])
  }

  /** The `late` list: the documents, in their stored order, whose deadline is
      before `today` and whose status is not "Hoàn thành", each as often as it
      is stored. */
  function Late(docs: seq<Document>, today: int): (late: seq<Document>)
    ensures forall d :: d in late ==> d in docs && d.deadline < today
    ensures forall d :: d in late ==> d.status != Done
    ensures forall d :: d in docs && IsLate(d, today) ==> d in late
    ensures IsSubsequence(late, docs)
    ensures forall d :: multiset(late)[d] == if IsLate(d, today) then multiset(docs)[d] else 0
  {
    if docs == [] then []
    else
      var rest := Late(docs[1..], today);
      assert docs == [docs[0]] + docs[1..];
      if IsLate(docs[0], today) then [docs[0]] + rest else rest
  }

  /** The alert: raised when the `late` list is not empty. */
  function OverdueAlert(docs: seq<Document>, today: int): (alert: bool)
    ensures alert <==> exists d :: d in docs && IsLate(d, today)
  {
    var late := Late(docs, today);
    assert late != [] ==> late[0] in late;
    late != []
  }

  /** Filtering the `late` list again changes nothing. */
  lemma {:induction false} LateIdempotent(docs: seq<Document>, today: int)
    ensures Late(Late(docs, today), today) == Late(docs, today)
  {
    if docs != [] {
      LateIdempotent(docs[1..], today);
      var rest := Late(docs[1..], today);
      if IsLate(docs[0], today) {
        assert ([docs[0]] + rest)[1..] == rest;
      }
    }
  }
}
