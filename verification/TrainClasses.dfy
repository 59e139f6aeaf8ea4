/** Train classes, found by name inside the train id, with their priorities and speeds. */
module TrainClasses {
  import opened StableSorting

  datatype TrainClass = TrainClass(name: string, priority: int, speedKmh: int)

  /** In dictionary order, which is the order of the search. */
  const CLASSES: seq<TrainClass> := [
    TrainClass("Rajdhani", 1, 130),
    TrainClass("Shatabdi", 1, 130),
    TrainClass("Vande-Bharat", 1, 160),
    TrainClass("Duronto", 2, 120),
    TrainClass("Garib-Rath", 3, 110),
    TrainClass("Jan-Shatabdi", 3, 110),
    TrainClass("Mail", 4, 100),
    TrainClass("Express", 4, 100),
    TrainClass("Passenger", 5, 80),
    TrainClass("Freight", 6, 60)
  ]

  const DEFAULT_CLASS := TrainClass("Express", 4, 100)

  /** ASCII part of Python's `str.lower`. */
  function Lower(s: string): (r: string)
    ensures |r| == |s|
  {
    seq(|s|, i requires 0 <= i < |s| => if 'A' <= s[i] <= 'Z' then s[i] - 'A' + 'a' else s[i])
  }

  predicate OccursAt(s: string, sub: string, k: nat) {
    k + |sub| <= |s| && s[k..k + |sub|] == sub
  }

  /** `sub in s` */
  predicate Contains(s: string, sub: string) {
    exists k: nat :: k <= |s| && OccursAt(s, sub, k)
  }

  predicate Mentions(trainId: string, c: TrainClass) {
    Contains(Lower(trainId), Lower(c.name))
  }

  /** Index of the first class the id mentions, or the number of classes. */
  function FirstMentioned(classes: seq<TrainClass>, trainId: string): (i: nat)
    ensures i <= |classes|
    ensures i < |classes| ==> Mentions(trainId, classes[i])
    ensures forall j :: 0 <= j < i ==> !Mentions(trainId, classes[j])
  {
    if classes == [] || Mentions(trainId, classes[0]) then 0 else 1 + FirstMentioned(classes[1..], trainId)
  }

  /** `_get_train_class` */
  function ClassOf(trainId: string): (c: TrainClass)
    ensures c in CLASSES
  {
    var i := FirstMentioned(CLASSES, trainId);
    if i < |CLASSES| then CLASSES[i]
    else
      assert CLASSES[7] == DEFAULT_CLASS;
      DEFAULT_CLASS
  }

  /** The class is the first in the list that the id mentions, and Express at 100 km/h if it mentions none. */
  lemma ClassOfExactly(trainId: string)
    ensures (exists i :: 0 <= i < |CLASSES| && ClassOf(trainId) == CLASSES[i] && Mentions(trainId, CLASSES[i])
                      && forall j :: 0 <= j < i ==> !Mentions(trainId, CLASSES[j]))
         || ((forall i :: 0 <= i < |CLASSES| ==> !Mentions(trainId, CLASSES[i]))
             && ClassOf(trainId) == TrainClass("Express", 4, 100))
  {
    hide CLASSES, Mentions, FirstMentioned;
    var i := FirstMentioned(CLASSES, trainId);
  }

  lemma ContainsTransitive(s: string, t: string, u: string)
    requires Contains(s, t) && Contains(t, u)
    ensures Contains(s, u)
  {
    var k: nat :| k <= |s| && OccursAt(s, t, k);
    var l: nat :| l <= |t| && OccursAt(t, u, l);
    assert k + |t| <= |s| && l + |u| <= |t|;
    forall i | 0 <= i < |u| ensures s[k + l + i] == u[i] {
      assert u[i] == t[l..l + |u|][i] == t[l + i] == s[k..k + |t|][l + i];
    }
    assert OccursAt(s, u, k + l);
  }

  lemma ContainsItself(s: string)
    ensures Contains(s, s)
  {
    assert s[0..|s|] == s;
    assert OccursAt(s, s, 0);
  }

  /** A class can be found at all exactly when no class before it has a name that is part of its own. */
  lemma FoundIffNotShadowed(classes: seq<TrainClass>, j: nat)
    requires j < |classes|
    ensures (exists id: string :: FirstMentioned(classes, id) == j)
       <==> (forall i :: 0 <= i < j ==> !Contains(Lower(classes[j].name), Lower(classes[i].name)))
  {
    hide Contains, Lower, FirstMentioned;
    var name := classes[j].name;
    if exists id: string :: FirstMentioned(classes, id) == j {
      var id: string :| FirstMentioned(classes, id) == j;
      forall i | 0 <= i < j ensures !Contains(Lower(name), Lower(classes[i].name)) {
        assert !Mentions(id, classes[i]);
        if Contains(Lower(name), Lower(classes[i].name)) {
          ContainsTransitive(Lower(id), Lower(name), Lower(classes[i].name));
        }
      }
    }
    if forall i :: 0 <= i < j ==> !Contains(Lower(name), Lower(classes[i].name)) {
      ContainsItself(Lower(name));
      assert Mentions(name, classes[j]);
      assert FirstMentioned(classes, name) == j;
    }
  }

  /** Every Jan-Shatabdi is taken for a Shatabdi: the class with its own priority and speed is never assigned. */
  lemma JanShatabdiNeverFound(trainId: string)
    ensures FirstMentioned(CLASSES, trainId) != 5
  {
    var whole, part := Lower("Jan-Shatabdi"), Lower("Shatabdi");
    assert OccursAt(whole, part, 4);
    assert Contains(whole, part);
    hide Contains, Lower;
    FoundIffNotShadowed(CLASSES, 5);
  }

  // ---- Order of scheduling ----

  /** Low priority numbers first. */
  function Urgency(trainId: string): real {
    -(ClassOf(trainId).priority as real)
  }

  /** `sorted(affected, key=priority)`; an event without trains stands for three placeholders. */
  function SchedulingOrder(affected: seq<string>): (r: seq<string>) {
    SortDescending(if affected == [] then ["TRAIN-0", "TRAIN-1", "TRAIN-2"] else affected, Urgency)
  }

  /** The order is a permutation of the request, or of the placeholders, by priority, and stable within a priority. */
  lemma SchedulingOrderIsStableSort(affected: seq<string>)
    ensures var items := if affected == [] then ["TRAIN-0", "TRAIN-1", "TRAIN-2"] else affected;
            var r := SchedulingOrder(affected);
            && multiset(r) == multiset(items)
            && (forall i, j :: 0 <= i < j < |r| ==> ClassOf(r[i]).priority <= ClassOf(r[j]).priority)
            && forall v: real :: WithScore(r, Urgency, v) == WithScore(items, Urgency, v)
  {
    hide SortDescending, WithScore, ClassOf;
    var items := if affected == [] then ["TRAIN-0", "TRAIN-1", "TRAIN-2"] else affected;
    var r := SchedulingOrder(affected);
    SortPermutes(items, Urgency);
    SortedDescending(items, Urgency);
    forall i, j | 0 <= i < j < |r| ensures ClassOf(r[i]).priority <= ClassOf(r[j]).priority {
      assert Urgency(r[i]) >= Urgency(r[j]);
    }
    forall v: real ensures WithScore(r, Urgency, v) == WithScore(items, Urgency, v) {
      SortStable(items, Urgency, v);
    }
  }
}
