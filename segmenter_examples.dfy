/**
 * Worked examples of `splitGroupedNumberRun`, the DP tables computed cell by
 * cell (costs scaled by 20).
 */
module SegmenterExamples {
  import opened Wrappers
  import opened Strs
  import opened Segmenter
  import opened SegmenterFacts

  /** The DP table for [4, 990, 429, 295, 000] with preferred count 2, step by step. */
  lemma Grouped5Costs0(w: seq<string>)
    requires w == ["4", "990", "429", "295", "000"]
    ensures SegCost(w, 0, 2) == 0
    ensures SegCost(w, 0, 3) == 2
    ensures SegCost(w, 0, 1) == 24
    ensures SegCost(w, 0, 4) == 12
  {
    assert At(w, 0) == "4";
    assert IsLeadGroup("4");
    assert !IsGroup3("4");
    assert At(w, 1) == "990";
    assert IsLeadGroup("990");
    assert IsGroup3("990");
    assert At(w, 2) == "429";
    assert IsLeadGroup("429");
    assert IsGroup3("429");
    assert At(w, 3) == "295";
    assert IsLeadGroup("295");
    assert IsGroup3("295");
    assert TailCost(w, 0, 1) == 0;
    assert TailCost(w, 0, 2) == 0;
    assert TailCost(w, 0, 3) == 0;
    assert TailCost(w, 0, 4) == 0;
  }

  lemma Grouped5Costs1(w: seq<string>)
    requires w == ["4", "990", "429", "295", "000"]
    ensures SegCost(w, 1, 2) == 0
    ensures SegCost(w, 1, 3) == 2
    ensures SegCost(w, 1, 1) == 24
    ensures SegCost(w, 1, 4) == 12
  {
    assert At(w, 1) == "990";
    assert IsLeadGroup("990");
    assert IsGroup3("990");
    assert At(w, 2) == "429";
    assert IsLeadGroup("429");
    assert IsGroup3("429");
    assert At(w, 3) == "295";
    assert IsLeadGroup("295");
    assert IsGroup3("295");
    assert At(w, 4) == "000";
    assert IsLeadGroup("000");
    assert IsGroup3("000");
    assert TailCost(w, 1, 1) == 0;
    assert TailCost(w, 1, 2) == 0;
    assert TailCost(w, 1, 3) == 0;
    assert TailCost(w, 1, 4) == 0;
  }

  lemma Grouped5Costs2(w: seq<string>)
    requires w == ["4", "990", "429", "295", "000"]
    ensures SegCost(w, 2, 2) == 0
    ensures SegCost(w, 2, 3) == 2
    ensures SegCost(w, 2, 1) == 24
  {
    assert At(w, 2) == "429";
    assert IsLeadGroup("429");
    assert IsGroup3("429");
    assert At(w, 3) == "295";
    assert IsLeadGroup("295");
    assert IsGroup3("295");
    assert At(w, 4) == "000";
    assert IsLeadGroup("000");
    assert IsGroup3("000");
    assert TailCost(w, 2, 1) == 0;
    assert TailCost(w, 2, 2) == 0;
    assert TailCost(w, 2, 3) == 0;
  }

  lemma Grouped5Costs3(w: seq<string>)
    requires w == ["4", "990", "429", "295", "000"]
    ensures SegCost(w, 3, 2) == 0
    ensures SegCost(w, 3, 1) == 24
  {
    assert At(w, 3) == "295";
    assert IsLeadGroup("295");
    assert IsGroup3("295");
    assert At(w, 4) == "000";
    assert IsLeadGroup("000");
    assert IsGroup3("000");
    assert TailCost(w, 3, 1) == 0;
    assert TailCost(w, 3, 2) == 0;
  }

  lemma Grouped5Costs4(w: seq<string>)
    requires w == ["4", "990", "429", "295", "000"]
    ensures SegCost(w, 4, 1) == 64
  {
    assert At(w, 4) == "000";
    assert IsLeadGroup("000");
    assert IsGroup3("000");
    assert TailCost(w, 4, 1) == 0;
  }

  lemma Grouped5Step0(w: seq<string>)
    requires w == ["4", "990", "429", "295", "000"]
    ensures Step(w, 2, [Some(Cell(0, [])), None, None, None, None, None], 0) == [Some(Cell(0, [])), Some(Cell(27, [Span(0, 1)])), Some(Cell(3, [Span(0, 2)])), Some(Cell(5, [Span(0, 3)])), Some(Cell(15, [Span(0, 4)])), None]
  {
    Grouped5Costs0(w);
    RelaxEachLenOrder(w, 2, [Some(Cell(0, [])), None, None, None, None, None], 0);
    var t0: seq<Option<Cell>> := [Some(Cell(0, [])), None, None, None, None, None];
    var t1 := Relax(w, 2, t0, 0, 2);
    assert StepCost(w, 2, 0, 2, 1) == 3;
    assert [] + [Span(0, 2)] == [Span(0, 2)];
    assert t1 == t0[2 := Some(Cell(3, [Span(0, 2)]))];
    assert t1 == [Some(Cell(0, [])), None, Some(Cell(3, [Span(0, 2)])), None, None, None];
    var t2 := Relax(w, 2, t1, 0, 3);
    assert StepCost(w, 2, 0, 3, 1) == 5;
    assert [] + [Span(0, 3)] == [Span(0, 3)];
    assert t2 == t1[3 := Some(Cell(5, [Span(0, 3)]))];
    assert t2 == [Some(Cell(0, [])), None, Some(Cell(3, [Span(0, 2)])), Some(Cell(5, [Span(0, 3)])), None, None];
    var t3 := Relax(w, 2, t2, 0, 1);
    assert StepCost(w, 2, 0, 1, 1) == 27;
    assert [] + [Span(0, 1)] == [Span(0, 1)];
    assert t3 == t2[1 := Some(Cell(27, [Span(0, 1)]))];
    assert t3 == [Some(Cell(0, [])), Some(Cell(27, [Span(0, 1)])), Some(Cell(3, [Span(0, 2)])), Some(Cell(5, [Span(0, 3)])), None, None];
    var t4 := Relax(w, 2, t3, 0, 4);
    assert StepCost(w, 2, 0, 4, 1) == 15;
    assert [] + [Span(0, 4)] == [Span(0, 4)];
    assert t4 == t3[4 := Some(Cell(15, [Span(0, 4)]))];
    assert t4 == [Some(Cell(0, [])), Some(Cell(27, [Span(0, 1)])), Some(Cell(3, [Span(0, 2)])), Some(Cell(5, [Span(0, 3)])), Some(Cell(15, [Span(0, 4)])), None];
  }

  lemma Grouped5Step1(w: seq<string>)
    requires w == ["4", "990", "429", "295", "000"]
    ensures Step(w, 2, [Some(Cell(0, [])), Some(Cell(27, [Span(0, 1)])), Some(Cell(3, [Span(0, 2)])), Some(Cell(5, [Span(0, 3)])), Some(Cell(15, [Span(0, 4)])), None], 1) == [Some(Cell(0, [])), Some(Cell(27, [Span(0, 1)])), Some(Cell(3, [Span(0, 2)])), Some(Cell(5, [Span(0, 3)])), Some(Cell(15, [Span(0, 4)])), Some(Cell(39, [Span(0, 1), Span(1, 5)]))]
  {
    Grouped5Costs1(w);
    RelaxEachLenOrder(w, 2, [Some(Cell(0, [])), Some(Cell(27, [Span(0, 1)])), Some(Cell(3, [Span(0, 2)])), Some(Cell(5, [Span(0, 3)])), Some(Cell(15, [Span(0, 4)])), None], 1);
    var t0: seq<Option<Cell>> := [Some(Cell(0, [])), Some(Cell(27, [Span(0, 1)])), Some(Cell(3, [Span(0, 2)])), Some(Cell(5, [Span(0, 3)])), Some(Cell(15, [Span(0, 4)])), None];
    var t1 := Relax(w, 2, t0, 1, 2);
    assert StepCost(w, 2, 1, 2, 2) == 0;
    assert t1 == t0;
    assert t1 == [Some(Cell(0, [])), Some(Cell(27, [Span(0, 1)])), Some(Cell(3, [Span(0, 2)])), Some(Cell(5, [Span(0, 3)])), Some(Cell(15, [Span(0, 4)])), None];
    var t2 := Relax(w, 2, t1, 1, 3);
    assert StepCost(w, 2, 1, 3, 2) == 2;
    assert t2 == t1;
    assert t2 == [Some(Cell(0, [])), Some(Cell(27, [Span(0, 1)])), Some(Cell(3, [Span(0, 2)])), Some(Cell(5, [Span(0, 3)])), Some(Cell(15, [Span(0, 4)])), None];
    var t3 := Relax(w, 2, t2, 1, 1);
    assert StepCost(w, 2, 1, 1, 2) == 24;
    assert t3 == t2;
    assert t3 == [Some(Cell(0, [])), Some(Cell(27, [Span(0, 1)])), Some(Cell(3, [Span(0, 2)])), Some(Cell(5, [Span(0, 3)])), Some(Cell(15, [Span(0, 4)])), None];
    var t4 := Relax(w, 2, t3, 1, 4);
    assert StepCost(w, 2, 1, 4, 2) == 12;
    assert [Span(0, 1)] + [Span(1, 5)] == [Span(0, 1), Span(1, 5)];
    assert t4 == t3[5 := Some(Cell(39, [Span(0, 1), Span(1, 5)]))];
    assert t4 == [Some(Cell(0, [])), Some(Cell(27, [Span(0, 1)])), Some(Cell(3, [Span(0, 2)])), Some(Cell(5, [Span(0, 3)])), Some(Cell(15, [Span(0, 4)])), Some(Cell(39, [Span(0, 1), Span(1, 5)]))];
  }

  lemma Grouped5Step2(w: seq<string>)
    requires w == ["4", "990", "429", "295", "000"]
    ensures Step(w, 2, [Some(Cell(0, [])), Some(Cell(27, [Span(0, 1)])), Some(Cell(3, [Span(0, 2)])), Some(Cell(5, [Span(0, 3)])), Some(Cell(15, [Span(0, 4)])), Some(Cell(39, [Span(0, 1), Span(1, 5)]))], 2) == [Some(Cell(0, [])), Some(Cell(27, [Span(0, 1)])), Some(Cell(3, [Span(0, 2)])), Some(Cell(5, [Span(0, 3)])), Some(Cell(3, [Span(0, 2), Span(2, 4)])), Some(Cell(5, [Span(0, 2), Span(2, 5)]))]
  {
    Grouped5Costs2(w);
    RelaxEachLenOrder(w, 2, [Some(Cell(0, [])), Some(Cell(27, [Span(0, 1)])), Some(Cell(3, [Span(0, 2)])), Some(Cell(5, [Span(0, 3)])), Some(Cell(15, [Span(0, 4)])), Some(Cell(39, [Span(0, 1), Span(1, 5)]))], 2);
    var t0: seq<Option<Cell>> := [Some(Cell(0, [])), Some(Cell(27, [Span(0, 1)])), Some(Cell(3, [Span(0, 2)])), Some(Cell(5, [Span(0, 3)])), Some(Cell(15, [Span(0, 4)])), Some(Cell(39, [Span(0, 1), Span(1, 5)]))];
    var t1 := Relax(w, 2, t0, 2, 2);
    assert StepCost(w, 2, 2, 2, 2) == 0;
    assert [Span(0, 2)] + [Span(2, 4)] == [Span(0, 2), Span(2, 4)];
    assert t1 == t0[4 := Some(Cell(3, [Span(0, 2), Span(2, 4)]))];
    assert t1 == [Some(Cell(0, [])), Some(Cell(27, [Span(0, 1)])), Some(Cell(3, [Span(0, 2)])), Some(Cell(5, [Span(0, 3)])), Some(Cell(3, [Span(0, 2), Span(2, 4)])), Some(Cell(39, [Span(0, 1), Span(1, 5)]))];
    var t2 := Relax(w, 2, t1, 2, 3);
    assert StepCost(w, 2, 2, 3, 2) == 2;
    assert [Span(0, 2)] + [Span(2, 5)] == [Span(0, 2), Span(2, 5)];
    assert t2 == t1[5 := Some(Cell(5, [Span(0, 2), Span(2, 5)]))];
    assert t2 == [Some(Cell(0, [])), Some(Cell(27, [Span(0, 1)])), Some(Cell(3, [Span(0, 2)])), Some(Cell(5, [Span(0, 3)])), Some(Cell(3, [Span(0, 2), Span(2, 4)])), Some(Cell(5, [Span(0, 2), Span(2, 5)]))];
    var t3 := Relax(w, 2, t2, 2, 1);
    assert StepCost(w, 2, 2, 1, 2) == 24;
    assert t3 == t2;
    assert t3 == [Some(Cell(0, [])), Some(Cell(27, [Span(0, 1)])), Some(Cell(3, [Span(0, 2)])), Some(Cell(5, [Span(0, 3)])), Some(Cell(3, [Span(0, 2), Span(2, 4)])), Some(Cell(5, [Span(0, 2), Span(2, 5)]))];
    var t4 := Relax(w, 2, t3, 2, 4);
    assert t4 == t3;
    assert t4 == [Some(Cell(0, [])), Some(Cell(27, [Span(0, 1)])), Some(Cell(3, [Span(0, 2)])), Some(Cell(5, [Span(0, 3)])), Some(Cell(3, [Span(0, 2), Span(2, 4)])), Some(Cell(5, [Span(0, 2), Span(2, 5)]))];
  }

  lemma Grouped5Step3(w: seq<string>)
    requires w == ["4", "990", "429", "295", "000"]
    ensures Step(w, 2, [Some(Cell(0, [])), Some(Cell(27, [Span(0, 1)])), Some(Cell(3, [Span(0, 2)])), Some(Cell(5, [Span(0, 3)])), Some(Cell(3, [Span(0, 2), Span(2, 4)])), Some(Cell(5, [Span(0, 2), Span(2, 5)]))], 3) == [Some(Cell(0, [])), Some(Cell(27, [Span(0, 1)])), Some(Cell(3, [Span(0, 2)])), Some(Cell(5, [Span(0, 3)])), Some(Cell(3, [Span(0, 2), Span(2, 4)])), Some(Cell(5, [Span(0, 2), Span(2, 5)]))]
  {
    Grouped5Costs3(w);
    RelaxEachLenOrder(w, 2, [Some(Cell(0, [])), Some(Cell(27, [Span(0, 1)])), Some(Cell(3, [Span(0, 2)])), Some(Cell(5, [Span(0, 3)])), Some(Cell(3, [Span(0, 2), Span(2, 4)])), Some(Cell(5, [Span(0, 2), Span(2, 5)]))], 3);
    var t0: seq<Option<Cell>> := [Some(Cell(0, [])), Some(Cell(27, [Span(0, 1)])), Some(Cell(3, [Span(0, 2)])), Some(Cell(5, [Span(0, 3)])), Some(Cell(3, [Span(0, 2), Span(2, 4)])), Some(Cell(5, [Span(0, 2), Span(2, 5)]))];
    var t1 := Relax(w, 2, t0, 3, 2);
    assert StepCost(w, 2, 3, 2, 2) == 0;
    assert t1 == t0;
    assert t1 == [Some(Cell(0, [])), Some(Cell(27, [Span(0, 1)])), Some(Cell(3, [Span(0, 2)])), Some(Cell(5, [Span(0, 3)])), Some(Cell(3, [Span(0, 2), Span(2, 4)])), Some(Cell(5, [Span(0, 2), Span(2, 5)]))];
    var t2 := Relax(w, 2, t1, 3, 3);
    assert t2 == t1;
    assert t2 == [Some(Cell(0, [])), Some(Cell(27, [Span(0, 1)])), Some(Cell(3, [Span(0, 2)])), Some(Cell(5, [Span(0, 3)])), Some(Cell(3, [Span(0, 2), Span(2, 4)])), Some(Cell(5, [Span(0, 2), Span(2, 5)]))];
    var t3 := Relax(w, 2, t2, 3, 1);
    assert StepCost(w, 2, 3, 1, 2) == 24;
    assert t3 == t2;
    assert t3 == [Some(Cell(0, [])), Some(Cell(27, [Span(0, 1)])), Some(Cell(3, [Span(0, 2)])), Some(Cell(5, [Span(0, 3)])), Some(Cell(3, [Span(0, 2), Span(2, 4)])), Some(Cell(5, [Span(0, 2), Span(2, 5)]))];
    var t4 := Relax(w, 2, t3, 3, 4);
    assert t4 == t3;
    assert t4 == [Some(Cell(0, [])), Some(Cell(27, [Span(0, 1)])), Some(Cell(3, [Span(0, 2)])), Some(Cell(5, [Span(0, 3)])), Some(Cell(3, [Span(0, 2), Span(2, 4)])), Some(Cell(5, [Span(0, 2), Span(2, 5)]))];
  }

  lemma Grouped5Step4(w: seq<string>)
    requires w == ["4", "990", "429", "295", "000"]
    ensures Step(w, 2, [Some(Cell(0, [])), Some(Cell(27, [Span(0, 1)])), Some(Cell(3, [Span(0, 2)])), Some(Cell(5, [Span(0, 3)])), Some(Cell(3, [Span(0, 2), Span(2, 4)])), Some(Cell(5, [Span(0, 2), Span(2, 5)]))], 4) == [Some(Cell(0, [])), Some(Cell(27, [Span(0, 1)])), Some(Cell(3, [Span(0, 2)])), Some(Cell(5, [Span(0, 3)])), Some(Cell(3, [Span(0, 2), Span(2, 4)])), Some(Cell(5, [Span(0, 2), Span(2, 5)]))]
  {
    Grouped5Costs4(w);
    RelaxEachLenOrder(w, 2, [Some(Cell(0, [])), Some(Cell(27, [Span(0, 1)])), Some(Cell(3, [Span(0, 2)])), Some(Cell(5, [Span(0, 3)])), Some(Cell(3, [Span(0, 2), Span(2, 4)])), Some(Cell(5, [Span(0, 2), Span(2, 5)]))], 4);
    var t0: seq<Option<Cell>> := [Some(Cell(0, [])), Some(Cell(27, [Span(0, 1)])), Some(Cell(3, [Span(0, 2)])), Some(Cell(5, [Span(0, 3)])), Some(Cell(3, [Span(0, 2), Span(2, 4)])), Some(Cell(5, [Span(0, 2), Span(2, 5)]))];
    var t1 := Relax(w, 2, t0, 4, 2);
    assert t1 == t0;
    assert t1 == [Some(Cell(0, [])), Some(Cell(27, [Span(0, 1)])), Some(Cell(3, [Span(0, 2)])), Some(Cell(5, [Span(0, 3)])), Some(Cell(3, [Span(0, 2), Span(2, 4)])), Some(Cell(5, [Span(0, 2), Span(2, 5)]))];
    var t2 := Relax(w, 2, t1, 4, 3);
    assert t2 == t1;
    assert t2 == [Some(Cell(0, [])), Some(Cell(27, [Span(0, 1)])), Some(Cell(3, [Span(0, 2)])), Some(Cell(5, [Span(0, 3)])), Some(Cell(3, [Span(0, 2), Span(2, 4)])), Some(Cell(5, [Span(0, 2), Span(2, 5)]))];
    var t3 := Relax(w, 2, t2, 4, 1);
    assert StepCost(w, 2, 4, 1, 3) == 67;
    assert t3 == t2;
    assert t3 == [Some(Cell(0, [])), Some(Cell(27, [Span(0, 1)])), Some(Cell(3, [Span(0, 2)])), Some(Cell(5, [Span(0, 3)])), Some(Cell(3, [Span(0, 2), Span(2, 4)])), Some(Cell(5, [Span(0, 2), Span(2, 5)]))];
    var t4 := Relax(w, 2, t3, 4, 4);
    assert t4 == t3;
    assert t4 == [Some(Cell(0, [])), Some(Cell(27, [Span(0, 1)])), Some(Cell(3, [Span(0, 2)])), Some(Cell(5, [Span(0, 3)])), Some(Cell(3, [Span(0, 2), Span(2, 4)])), Some(Cell(5, [Span(0, 2), Span(2, 5)]))];
  }

  lemma Grouped5Table(w: seq<string>)
    requires w == ["4", "990", "429", "295", "000"]
    ensures DpTable(w, 2)[5] == Some(Cell(5, [Span(0, 2), Span(2, 5)]))
  {
    assert DpUpTo(w, 2, 0) == [Some(Cell(0, [])), None, None, None, None, None];
    Grouped5Step0(w);
    assert DpUpTo(w, 2, 1) == [Some(Cell(0, [])), Some(Cell(27, [Span(0, 1)])), Some(Cell(3, [Span(0, 2)])), Some(Cell(5, [Span(0, 3)])), Some(Cell(15, [Span(0, 4)])), None];
    Grouped5Step1(w);
    assert DpUpTo(w, 2, 2) == [Some(Cell(0, [])), Some(Cell(27, [Span(0, 1)])), Some(Cell(3, [Span(0, 2)])), Some(Cell(5, [Span(0, 3)])), Some(Cell(15, [Span(0, 4)])), Some(Cell(39, [Span(0, 1), Span(1, 5)]))];
    Grouped5Step2(w);
    assert DpUpTo(w, 2, 3) == [Some(Cell(0, [])), Some(Cell(27, [Span(0, 1)])), Some(Cell(3, [Span(0, 2)])), Some(Cell(5, [Span(0, 3)])), Some(Cell(3, [Span(0, 2), Span(2, 4)])), Some(Cell(5, [Span(0, 2), Span(2, 5)]))];
    Grouped5Step3(w);
    assert DpUpTo(w, 2, 4) == [Some(Cell(0, [])), Some(Cell(27, [Span(0, 1)])), Some(Cell(3, [Span(0, 2)])), Some(Cell(5, [Span(0, 3)])), Some(Cell(3, [Span(0, 2), Span(2, 4)])), Some(Cell(5, [Span(0, 2), Span(2, 5)]))];
    Grouped5Step4(w);
    assert DpUpTo(w, 2, 5) == [Some(Cell(0, [])), Some(Cell(27, [Span(0, 1)])), Some(Cell(3, [Span(0, 2)])), Some(Cell(5, [Span(0, 3)])), Some(Cell(3, [Span(0, 2), Span(2, 4)])), Some(Cell(5, [Span(0, 2), Span(2, 5)]))];
  }

  /** The DP table for [22, 875, 000] with preferred count 1, step by step. */
  lemma Grouped3Costs0(w: seq<string>)
    requires w == ["22", "875", "000"]
    ensures SegCost(w, 0, 2) == 0
    ensures SegCost(w, 0, 3) == 2
    ensures SegCost(w, 0, 1) == 24
  {
    assert At(w, 0) == "22";
    assert IsLeadGroup("22");
    assert !IsGroup3("22");
    assert At(w, 1) == "875";
    assert IsLeadGroup("875");
    assert IsGroup3("875");
    assert At(w, 2) == "000";
    assert IsLeadGroup("000");
    assert IsGroup3("000");
    assert TailCost(w, 0, 1) == 0;
    assert TailCost(w, 0, 2) == 0;
    assert TailCost(w, 0, 3) == 0;
  }

  lemma Grouped3Costs1(w: seq<string>)
    requires w == ["22", "875", "000"]
    ensures SegCost(w, 1, 2) == 0
    ensures SegCost(w, 1, 1) == 24
  {
    assert At(w, 1) == "875";
    assert IsLeadGroup("875");
    assert IsGroup3("875");
    assert At(w, 2) == "000";
    assert IsLeadGroup("000");
    assert IsGroup3("000");
    assert TailCost(w, 1, 1) == 0;
    assert TailCost(w, 1, 2) == 0;
  }

  lemma Grouped3Costs2(w: seq<string>)
    requires w == ["22", "875", "000"]
    ensures SegCost(w, 2, 1) == 64
  {
    assert At(w, 2) == "000";
    assert IsLeadGroup("000");
    assert IsGroup3("000");
    assert TailCost(w, 2, 1) == 0;
  }

  lemma Grouped3Step0(w: seq<string>)
    requires w == ["22", "875", "000"]
    ensures Step(w, 1, [Some(Cell(0, [])), None, None, None], 0) == [Some(Cell(0, [])), Some(Cell(24, [Span(0, 1)])), Some(Cell(0, [Span(0, 2)])), Some(Cell(2, [Span(0, 3)]))]
  {
    Grouped3Costs0(w);
    RelaxEachLenOrder(w, 1, [Some(Cell(0, [])), None, None, None], 0);
    var t0: seq<Option<Cell>> := [Some(Cell(0, [])), None, None, None];
    var t1 := Relax(w, 1, t0, 0, 2);
    assert StepCost(w, 1, 0, 2, 1) == 0;
    assert [] + [Span(0, 2)] == [Span(0, 2)];
    assert t1 == t0[2 := Some(Cell(0, [Span(0, 2)]))];
    assert t1 == [Some(Cell(0, [])), None, Some(Cell(0, [Span(0, 2)])), None];
    var t2 := Relax(w, 1, t1, 0, 3);
    assert StepCost(w, 1, 0, 3, 1) == 2;
    assert [] + [Span(0, 3)] == [Span(0, 3)];
    assert t2 == t1[3 := Some(Cell(2, [Span(0, 3)]))];
    assert t2 == [Some(Cell(0, [])), None, Some(Cell(0, [Span(0, 2)])), Some(Cell(2, [Span(0, 3)]))];
    var t3 := Relax(w, 1, t2, 0, 1);
    assert StepCost(w, 1, 0, 1, 1) == 24;
    assert [] + [Span(0, 1)] == [Span(0, 1)];
    assert t3 == t2[1 := Some(Cell(24, [Span(0, 1)]))];
    assert t3 == [Some(Cell(0, [])), Some(Cell(24, [Span(0, 1)])), Some(Cell(0, [Span(0, 2)])), Some(Cell(2, [Span(0, 3)]))];
    var t4 := Relax(w, 1, t3, 0, 4);
    assert t4 == t3;
    assert t4 == [Some(Cell(0, [])), Some(Cell(24, [Span(0, 1)])), Some(Cell(0, [Span(0, 2)])), Some(Cell(2, [Span(0, 3)]))];
  }

  lemma Grouped3Step1(w: seq<string>)
    requires w == ["22", "875", "000"]
    ensures Step(w, 1, [Some(Cell(0, [])), Some(Cell(24, [Span(0, 1)])), Some(Cell(0, [Span(0, 2)])), Some(Cell(2, [Span(0, 3)]))], 1) == [Some(Cell(0, [])), Some(Cell(24, [Span(0, 1)])), Some(Cell(0, [Span(0, 2)])), Some(Cell(2, [Span(0, 3)]))]
  {
    Grouped3Costs1(w);
    RelaxEachLenOrder(w, 1, [Some(Cell(0, [])), Some(Cell(24, [Span(0, 1)])), Some(Cell(0, [Span(0, 2)])), Some(Cell(2, [Span(0, 3)]))], 1);
    var t0: seq<Option<Cell>> := [Some(Cell(0, [])), Some(Cell(24, [Span(0, 1)])), Some(Cell(0, [Span(0, 2)])), Some(Cell(2, [Span(0, 3)]))];
    var t1 := Relax(w, 1, t0, 1, 2);
    assert StepCost(w, 1, 1, 2, 2) == 3;
    assert t1 == t0;
    assert t1 == [Some(Cell(0, [])), Some(Cell(24, [Span(0, 1)])), Some(Cell(0, [Span(0, 2)])), Some(Cell(2, [Span(0, 3)]))];
    var t2 := Relax(w, 1, t1, 1, 3);
    assert t2 == t1;
    assert t2 == [Some(Cell(0, [])), Some(Cell(24, [Span(0, 1)])), Some(Cell(0, [Span(0, 2)])), Some(Cell(2, [Span(0, 3)]))];
    var t3 := Relax(w, 1, t2, 1, 1);
    assert StepCost(w, 1, 1, 1, 2) == 27;
    assert t3 == t2;
    assert t3 == [Some(Cell(0, [])), Some(Cell(24, [Span(0, 1)])), Some(Cell(0, [Span(0, 2)])), Some(Cell(2, [Span(0, 3)]))];
    var t4 := Relax(w, 1, t3, 1, 4);
    assert t4 == t3;
    assert t4 == [Some(Cell(0, [])), Some(Cell(24, [Span(0, 1)])), Some(Cell(0, [Span(0, 2)])), Some(Cell(2, [Span(0, 3)]))];
  }

  lemma Grouped3Step2(w: seq<string>)
    requires w == ["22", "875", "000"]
    ensures Step(w, 1, [Some(Cell(0, [])), Some(Cell(24, [Span(0, 1)])), Some(Cell(0, [Span(0, 2)])), Some(Cell(2, [Span(0, 3)]))], 2) == [Some(Cell(0, [])), Some(Cell(24, [Span(0, 1)])), Some(Cell(0, [Span(0, 2)])), Some(Cell(2, [Span(0, 3)]))]
  {
    Grouped3Costs2(w);
    RelaxEachLenOrder(w, 1, [Some(Cell(0, [])), Some(Cell(24, [Span(0, 1)])), Some(Cell(0, [Span(0, 2)])), Some(Cell(2, [Span(0, 3)]))], 2);
    var t0: seq<Option<Cell>> := [Some(Cell(0, [])), Some(Cell(24, [Span(0, 1)])), Some(Cell(0, [Span(0, 2)])), Some(Cell(2, [Span(0, 3)]))];
    var t1 := Relax(w, 1, t0, 2, 2);
    assert t1 == t0;
    assert t1 == [Some(Cell(0, [])), Some(Cell(24, [Span(0, 1)])), Some(Cell(0, [Span(0, 2)])), Some(Cell(2, [Span(0, 3)]))];
    var t2 := Relax(w, 1, t1, 2, 3);
    assert t2 == t1;
    assert t2 == [Some(Cell(0, [])), Some(Cell(24, [Span(0, 1)])), Some(Cell(0, [Span(0, 2)])), Some(Cell(2, [Span(0, 3)]))];
    var t3 := Relax(w, 1, t2, 2, 1);
    assert StepCost(w, 1, 2, 1, 2) == 67;
    assert t3 == t2;
    assert t3 == [Some(Cell(0, [])), Some(Cell(24, [Span(0, 1)])), Some(Cell(0, [Span(0, 2)])), Some(Cell(2, [Span(0, 3)]))];
    var t4 := Relax(w, 1, t3, 2, 4);
    assert t4 == t3;
    assert t4 == [Some(Cell(0, [])), Some(Cell(24, [Span(0, 1)])), Some(Cell(0, [Span(0, 2)])), Some(Cell(2, [Span(0, 3)]))];
  }

  lemma Grouped3Table(w: seq<string>)
    requires w == ["22", "875", "000"]
    ensures DpTable(w, 1)[3] == Some(Cell(2, [Span(0, 3)]))
  {
    assert DpUpTo(w, 1, 0) == [Some(Cell(0, [])), None, None, None];
    Grouped3Step0(w);
    assert DpUpTo(w, 1, 1) == [Some(Cell(0, [])), Some(Cell(24, [Span(0, 1)])), Some(Cell(0, [Span(0, 2)])), Some(Cell(2, [Span(0, 3)]))];
    Grouped3Step1(w);
    assert DpUpTo(w, 1, 2) == [Some(Cell(0, [])), Some(Cell(24, [Span(0, 1)])), Some(Cell(0, [Span(0, 2)])), Some(Cell(2, [Span(0, 3)]))];
    Grouped3Step2(w);
    assert DpUpTo(w, 1, 3) == [Some(Cell(0, [])), Some(Cell(24, [Span(0, 1)])), Some(Cell(0, [Span(0, 2)])), Some(Cell(2, [Span(0, 3)]))];
  }

  // ---------------------------------------------------------------------------
  // Whole runs. Each literal fact sits in a lemma of its own, and the lemmas
  // about a run take the run and its tokens as parameters.

  lemma Join5()
    ensures Join(" ", ["4", "990", "429", "295", "000"]) == "4 990 429 295 000"
  {
  }

  lemma Small5()
    ensures forall t | t in ["4", "990", "429", "295", "000"] :: IsSignedInt(t) && |StripSign(t)| <= 3 && NoWs(t)
  {
  }

  /** "4 990 429 295 000" is five 1-3-digit groups, handed to the repairs and the DP as they are. */
  lemma Grouped5Reach(run: string, ts: seq<string>, pc: nat, repairs: bool)
    requires run == "4 990 429 295 000" && ts == ["4", "990", "429", "295", "000"]
    ensures SplitRun(run, pc, repairs) == SplitWorking(run, ts, pc, repairs)
    ensures AllInts(ts) && AllSmall(ts)
  {
    Join5();
    Small5();
    SmallGroupsReachDp(ts, pc, repairs);
  }

  lemma {:induction false} Grouped5Dp(run: string, ts: seq<string>)
    requires ts == ["4", "990", "429", "295", "000"]
    ensures SplitWorking(run, ts, 2, false) == Groups(ts, [Span(0, 2), Span(2, 5)])
  {
    assert AllInts(ts) && AllSmall(ts) by { Small5(); }
    Grouped5Table(ts);
  }

  lemma {:induction false} Grouped5Groups(ts: seq<string>)
    requires ts == ["4", "990", "429", "295", "000"]
    ensures Groups(ts, [Span(0, 2), Span(2, 5)]) == ["4 990", "429 295 000"]
  {
    assert [Span(0, 2), Span(2, 5)][..1] == [Span(0, 2)];
    assert Groups(ts, [Span(0, 2)]) == [Group(ts, Span(0, 2))];
    assert Groups(ts, [Span(0, 2), Span(2, 5)]) == [Group(ts, Span(0, 2)), Group(ts, Span(2, 5))];
    assert ts[0..2] == ["4", "990"] && ts[2..5] == ["429", "295", "000"];
    assert Join(" ", ["4", "990"]) == "4 990";
    assert Join(" ", ["429", "295", "000"]) == "429 295 000";
  }

  lemma PlainSplitsTwoThreeOn(run: string, ts: seq<string>)
    requires run == "4 990 429 295 000" && ts == ["4", "990", "429", "295", "000"]
    ensures SplitRun(run, 2, false) == ["4 990", "429 295 000"]
  {
    Grouped5Reach(run, ts, 2, false);
    Grouped5Dp(run, ts);
    Grouped5Groups(ts);
  }

  /** With two preferred values, the copies without repairs split
      "4 990 429 295 000" 2+3: the 2+3 and 3+2 splits both cost 0.25 and the
      DP keeps the one it found first. */
  lemma PlainSplitsTwoThree(run: string)
    requires run == "4 990 429 295 000"
    ensures SplitRun(run, 2, false) == ["4 990", "429 295 000"]
  {
    PlainSplitsTwoThreeOn(run, ["4", "990", "429", "295", "000"]);
  }

  lemma Footnote5(ts: seq<string>)
    requires ts == ["4", "990", "429", "295", "000"]
    ensures FootnoteRepair(ts) == Some(["4 990 429", "295 000"])
  {
    Small5();
    assert D(ts, 0) == "4" && D(ts, 1) == "990" && D(ts, 2) == "429" && D(ts, 3) == "295" && D(ts, 4) == "000";
    assert ts[..3] == ["4", "990", "429"] && ts[3..] == ["295", "000"];
    assert Join(" ", ["4", "990", "429"]) == "4 990 429";
    assert Join(" ", ["295", "000"]) == "295 000";
  }

  lemma ScraperSplitsThreeTwoOn(run: string, ts: seq<string>)
    requires run == "4 990 429 295 000" && ts == ["4", "990", "429", "295", "000"]
    ensures SplitRun(run, 2, true) == ["4 990 429", "295 000"]
  {
    Grouped5Reach(run, ts, 2, true);
    Footnote5(ts);
  }

  /** The scraper copy's five-group repair splits the same run 3+2 instead. */
  lemma ScraperSplitsThreeTwo(run: string)
    requires run == "4 990 429 295 000"
    ensures SplitRun(run, 2, true) == ["4 990 429", "295 000"]
  {
    ScraperSplitsThreeTwoOn(run, ["4", "990", "429", "295", "000"]);
  }

  lemma Join3()
    ensures Join(" ", ["22", "875", "000"]) == "22 875 000"
  {
  }

  lemma Small3()
    ensures forall t | t in ["22", "875", "000"] :: IsSignedInt(t) && |StripSign(t)| <= 3 && NoWs(t)
  {
  }

  lemma Grouped3Reach(run: string, ts: seq<string>, pc: nat, repairs: bool)
    requires run == "22 875 000" && ts == ["22", "875", "000"]
    ensures SplitRun(run, pc, repairs) == SplitWorking(run, ts, pc, repairs)
    ensures AllInts(ts) && AllSmall(ts)
  {
    Join3();
    Small3();
    SmallGroupsReachDp(ts, pc, repairs);
  }

  lemma {:induction false} Grouped3Dp(run: string, ts: seq<string>, repairs: bool)
    requires ts == ["22", "875", "000"]
    ensures SplitWorking(run, ts, 1, repairs) == Groups(ts, [Span(0, 3)])
  {
    assert AllInts(ts) && AllSmall(ts) by { Small3(); }
    Grouped3Table(ts);
  }

  lemma {:induction false} Grouped3Groups(ts: seq<string>)
    requires ts == ["22", "875", "000"]
    ensures Groups(ts, [Span(0, 3)]) == ["22 875 000"]
  {
    assert ts[0..3] == ts;
    assert Groups(ts, [Span(0, 3)]) == [Group(ts, Span(0, 3))];
    Join3();
  }

  lemma OneValueKeptOn(run: string, ts: seq<string>, repairs: bool)
    requires run == "22 875 000" && ts == ["22", "875", "000"]
    ensures SplitRun(run, 1, repairs) == ["22 875 000"]
  {
    Grouped3Reach(run, ts, 1, repairs);
    Grouped3Dp(run, ts, repairs);
    Grouped3Groups(ts);
  }

  /** With one preferred value, "22 875 000" stays one value in every copy. */
  lemma OneValueKept(run: string, repairs: bool)
    requires run == "22 875 000"
    ensures SplitRun(run, 1, repairs) == ["22 875 000"]
  {
    OneValueKeptOn(run, ["22", "875", "000"], repairs);
  }

  lemma Footnote3(ts: seq<string>)
    requires ts == ["22", "875", "000"]
    ensures FootnoteRepair(ts) == Some(["2 875 000"])
  {
    Small3();
    assert D(ts, 0) == "22" && D(ts, 1) == "875" && D(ts, 2) == "000";
    assert D(ts, 0)[0] == '2' && D(ts, 0)[1] == '2';
    assert ['2'] + " " + "875" + " " + "000" == "2 875 000";
  }

  lemma DuplicatedDigitRepairOn(run: string, ts: seq<string>)
    requires run == "22 875 000" && ts == ["22", "875", "000"]
    ensures SplitRun(run, 2, true) == ["2 875 000"]
  {
    Grouped3Reach(run, ts, 2, true);
    Footnote3(ts);
  }

  /** With two preferred values the scraper's duplicated-leading-digit repair
      also rewrites a genuine "22 875 000" to "2 875 000": the heuristic cannot
      tell a footnote digit from a real one. */
  lemma DuplicatedDigitRepairRewritesRealValue(run: string)
    requires run == "22 875 000"
    ensures SplitRun(run, 2, true) == ["2 875 000"]
  {
    DuplicatedDigitRepairOn(run, ["22", "875", "000"]);
  }

  lemma JoinMerged()
    ensures Join(" ", ["404", "965", "842"]) == "404 965 842"
  {
  }

  lemma SmallMerged()
    ensures forall t | t in ["404", "965", "842"] :: IsSignedInt(t) && |StripSign(t)| <= 3 && NoWs(t)
  {
  }

  lemma FootnoteMerged(ts: seq<string>)
    requires ts == ["404", "965", "842"]
    ensures FootnoteRepair(ts) == Some(["0", "4 965 842"])
  {
    SmallMerged();
    assert D(ts, 0) == "404" && D(ts, 1) == "965" && D(ts, 2) == "842";
    assert D(ts, 0)[0] == '4' && D(ts, 0)[1] == '0' && D(ts, 0)[2..] == "4";
    assert "4" + " " + "965" + " " + "842" == "4 965 842";
  }

  lemma MergedFootnoteOn(run: string, ts: seq<string>)
    requires run == "404 965 842" && ts == ["404", "965", "842"]
    ensures SplitRun(run, 2, true) == ["0", "4 965 842"]
  {
    JoinMerged();
    SmallMerged();
    SmallGroupsReachDp(ts, 2, true);
    FootnoteMerged(ts);
  }

  /** A footnote digit merged into the first group: "404 965 842" gives "0"
      and "4 965 842". */
  lemma MergedFootnoteRepaired(run: string)
    requires run == "404 965 842"
    ensures SplitRun(run, 2, true) == ["0", "4 965 842"]
  {
    MergedFootnoteOn(run, ["404", "965", "842"]);
  }

  lemma JoinNote()
    ensures Join(" ", ["4", "4", "990", "429"]) == "4 4 990 429"
  {
  }

  lemma SmallNote()
    ensures forall t | t in ["4", "4", "990", "429"] :: IsSignedInt(t) && |StripSign(t)| <= 3 && NoWs(t)
  {
  }

  lemma FootnoteNote(ts: seq<string>)
    requires ts == ["4", "4", "990", "429"]
    ensures FootnoteRepair(ts) == Some(["4 990 429"])
  {
    SmallNote();
    assert D(ts, 0) == "4" && D(ts, 1) == "4" && D(ts, 2) == "990" && D(ts, 3) == "429";
    assert ts[1] + " " + ts[2] + " " + ts[3] == "4 990 429";
  }

  lemma DuplicatedNoteOn(run: string, ts: seq<string>)
    requires run == "4 4 990 429" && ts == ["4", "4", "990", "429"]
    ensures SplitRun(run, 2, true) == ["4 990 429"]
  {
    JoinNote();
    SmallNote();
    SmallGroupsReachDp(ts, 2, true);
    FootnoteNote(ts);
  }

  /** A single-digit note repeated before the value: "4 4 990 429" gives "4 990 429". */
  lemma DuplicatedNoteRepaired(run: string)
    requires run == "4 4 990 429"
    ensures SplitRun(run, 2, true) == ["4 990 429"]
  {
    DuplicatedNoteOn(run, ["4", "4", "990", "429"]);
  }

  lemma JoinZero()
    ensures Join(" ", ["4", "0", "4", "965", "842"]) == "4 0 4 965 842"
  {
  }

  lemma SmallZero()
    ensures forall t | t in ["4", "0", "4", "965", "842"] :: IsSignedInt(t) && |StripSign(t)| <= 3 && NoWs(t)
  {
  }

  lemma FootnoteZero(ts: seq<string>)
    requires ts == ["4", "0", "4", "965", "842"]
    ensures FootnoteRepair(ts) == Some(["0", "4 965 842"])
  {
    SmallZero();
    assert D(ts, 0) == "4" && D(ts, 1) == "0" && D(ts, 2) == "4" && D(ts, 3) == "965" && D(ts, 4) == "842";
    assert ts[1] == "0";
    assert ts[2..] == ["4", "965", "842"];
    assert Join(" ", ["4", "965", "842"]) == "4 965 842";
  }

  lemma NoteBeforeZeroOn(run: string, ts: seq<string>)
    requires run == "4 0 4 965 842" && ts == ["4", "0", "4", "965", "842"]
    ensures SplitRun(run, 2, true) == ["0", "4 965 842"]
  {
    JoinZero();
    SmallZero();
    SmallGroupsReachDp(ts, 2, true);
    FootnoteZero(ts);
  }

  /** A note digit before a zero value: "4 0 4 965 842" gives "0" and "4 965 842". */
  lemma NoteBeforeZeroRepaired(run: string)
    requires run == "4 0 4 965 842"
    ensures SplitRun(run, 2, true) == ["0", "4 965 842"]
  {
    NoteBeforeZeroOn(run, ["4", "0", "4", "965", "842"]);
  }

  lemma JoinPair()
    ensures Join(" ", ["9", "1330"]) == "9 1330"
  {
  }

  lemma PairTokens()
    ensures forall t | t in ["9", "1330"] :: t != "" && NoWs(t)
  {
  }

  lemma PairOf(ts: seq<string>)
    requires ts == ["9", "1330"]
    ensures PairRepair(ts, 2) == Some(["9133", "0"])
  {
    assert StripSign("9") == "9" && StripSign("1330") == "1330";
    assert IsLeadGroup("9") && AllDigits("1330");
    assert "1330"[..3] == "133" && "1330"[3..] == "0";
    assert "9" + "133" == "9133";
  }

  lemma PairRepairedOn(run: string, ts: seq<string>, repairs: bool)
    requires run == "9 1330" && ts == ["9", "1330"]
    ensures SplitRun(run, 2, repairs) == ["9133", "0"]
  {
    JoinPair();
    PairTokens();
    JoinedTokens(ts);
    PairOf(ts);
  }

  /** The OCR pair repair: "9 1330" gives "9133" and "0". */
  lemma PairRepaired(run: string, repairs: bool)
    requires run == "9 1330"
    ensures SplitRun(run, 2, repairs) == ["9133", "0"]
  {
    PairRepairedOn(run, ["9", "1330"], repairs);
  }

  /** A single token is kept whole, whatever its digits: "2023" stays "2023". */
  lemma SingleTokenKept(run: string, pc: nat, repairs: bool)
    requires run == "2023"
    ensures SplitRun(run, pc, repairs) == ["2023"]
  {
    assert Join(" ", ["2023"]) == run;
    assert forall t | t in ["2023"] :: t != "" && NoWs(t);
    JoinedTokens(["2023"]);
  }
}
