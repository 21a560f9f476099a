/** Course and section materialisation: how a SAMIE training group becomes a
    Moodle course or category, how a specialty module becomes a course, and
    how its specialties are laid out as numbered sections ending with the
    final test. */
module Courses {
  import opened Text
  import opened Platform

  // ---------------------------------------------------------------- inputs

  /** A training group row (st_accionesformativas_grupos joined with its
      action). */
  datatype TrainingGroup = TrainingGroup(afgId: int, denominacion: string, esCncp: int, info: string)

  /** A module row of stv_cursomoodle. */
  datatype Module = Module(aesId: int, codigo: string, cerCodigo: string, descripcion: string,
                           afgIdLms: int, info: string)

  /** A specialty of a module (st_especialidades). */
  datatype Specialty = Specialty(descripcion: string, codigo: string)

  // --------------------------------------------------------------- naming

  /** What create_moodle_course builds for a training group. */
  datatype ContainerKind = StandardCourse | CourseCategory

  /** A professional certificate (`afa_es_cncp` non-zero) becomes a category,
      anything else a standard course. */
  function ContainerFor(g: TrainingGroup): (k: ContainerKind)
    ensures k == StandardCourse <==> g.esCncp == 0
  {
    if g.esCncp == 0 then StandardCourse else CourseCategory
  }

  /** A standard course's shortname and fullname: `name (group id)`. */
  function GroupCourseName(g: TrainingGroup): (s: string)
    ensures s == g.denominacion + " (" + IntToString(g.afgId) + ")"
    ensures |s| > |g.denominacion| + 2 && s[..|g.denominacion|] == g.denominacion && s[|s| - 1] == ')'
  {
    g.denominacion + " (" + IntToString(g.afgId) + ")"
  }

  /** A module course's idnumber: `AES_` and the specialty action id. */
  function ModuleIdnumber(m: Module): (s: string)
    ensures |s| > 4 && s[..4] == "AES_" && s[4..] == IntToString(m.aesId)
  {
    "AES_" + IntToString(m.aesId)
  }

  /** Distinct specialty actions never share an idnumber. */
  lemma ModuleIdnumberInjective(m1: Module, m2: Module)
    requires ModuleIdnumber(m1) == ModuleIdnumber(m2)
    ensures m1.aesId == m2.aesId
  {
    assert IntToString(m1.aesId) == ModuleIdnumber(m1)[4..] == ModuleIdnumber(m2)[4..] == IntToString(m2.aesId);
    ParseIntToString(m1.aesId);
    ParseIntToString(m2.aesId);
  }

  /** The section a specialty becomes: `descripcion (codigo)` with summary
      `codigo-aesId`. */
  function SpecialtySection(s: Specialty, aesId: int): Section
  {
    Section(s.descripcion + " (" + s.codigo + ")", s.codigo + "-" + IntToString(aesId))
  }

  /** The section's name carries the description and the code, and the
      action id reads back from the summary after the code and its dash. */
  lemma SpecialtySectionParts(s: Specialty, aesId: int)
    ensures var sec := SpecialtySection(s, aesId);
      && |sec.name| == |s.descripcion| + |s.codigo| + 3
      && sec.name[..|s.descripcion|] == s.descripcion
      && sec.name[|s.descripcion| + 2..|sec.name| - 1] == s.codigo
      && |sec.summary| > |s.codigo| + 1 && sec.summary[..|s.codigo| + 1] == s.codigo + "-"
      && ParseInt(sec.summary[|s.codigo| + 1..]) == aesId
  {
    var sec := SpecialtySection(s, aesId);
    assert sec.summary[|s.codigo| + 1..] == IntToString(aesId);
    ParseIntToString(aesId);
  }

  /** The final test section: `TEST FINAL codigo` with `MF` replaced by `TF`
      in the summary. */
  function FinalTestSection(codigo: string): (s: Section)
    ensures s.name == "TEST FINAL " + codigo
    ensures |s.summary| == |codigo| && !HasPair(s.summary, 'M', 'F')
  {
    ReplaceMFRemovesAll(codigo);
    Section("TEST FINAL " + codigo, ReplaceAll(codigo, "MF", "TF"))
  }

  // ------------------------------------------------------------- sections

  /** What the database does with one section write: position 0 is a single
      UPDATE (Stored or Rejected); any other position is an INSERT followed
      by an UPDATE of `numsections`, and the second can fail after the
      first went through (StoredWithoutCount). */
  datatype SectionWrite = Stored | Rejected | StoredWithoutCount

  /** insert_course_section: the result, and the course afterwards. Position
      0 is renamed in place; a later position is inserted and, when the
      count update also succeeds, becomes `numsections`. */
  function InsertCourseSection(c: Course, s: Section, pos: nat, w: SectionWrite): (r: (bool, Course))
    ensures r.0 <==> w == Stored
    ensures r.1 == c.(sections := r.1.sections, numsections := r.1.numsections)
    ensures pos == 0 ==> r.1.numsections == c.numsections
    ensures pos == 0 ==> r.1.sections == if w == Stored then c.sections[0 := s] else c.sections
    ensures pos > 0 ==> r.1.sections == if w == Rejected then c.sections else c.sections[pos := s]
    ensures pos > 0 ==> r.1.numsections == if w == Stored then pos else c.numsections
  {
    if pos == 0 then
      if w == Stored then (true, c.(sections := c.sections[0 := s])) else (false, c)
    else if w == Rejected then (false, c)
    else if w == Stored then (true, c.(sections := c.sections[pos := s], numsections := pos))
    else (false, c.(sections := c.sections[pos := s]))
  }

  /** The specialties whose section write was Stored, in source order. */
  function Placed(specs: seq<Specialty>, writes: seq<SectionWrite>): (r: seq<Specialty>)
    requires |writes| == |specs|
    ensures |r| <= |specs|
  {
    if |specs| == 0 then []
    else
      var n := |specs| - 1;
      Placed(specs[..n], writes[..n]) + (if writes[n] == Stored then [specs[n]] else [])
  }

  /** Every placed specialty comes from the input, and all of them are
      placed when every write succeeds. */
  lemma PlacedSubsequence(specs: seq<Specialty>, writes: seq<SectionWrite>)
    requires |writes| == |specs|
    ensures forall j :: 0 <= j < |Placed(specs, writes)| ==> Placed(specs, writes)[j] in specs
    ensures (forall i :: 0 <= i < |writes| ==> writes[i] == Stored) ==> Placed(specs, writes) == specs
  {
    PlacedFromInput(specs, writes);
    if forall i :: 0 <= i < |writes| ==> writes[i] == Stored {
      PlacedAll(specs, writes);
    }
  }

  lemma {:induction false} PlacedFromInput(specs: seq<Specialty>, writes: seq<SectionWrite>)
    requires |writes| == |specs|
    ensures forall x :: x in Placed(specs, writes) ==> x in specs
  {
    if |specs| > 0 {
      var n := |specs| - 1;
      PlacedFromInput(specs[..n], writes[..n]);
      assert forall x :: x in specs[..n] ==> x in specs;
    }
  }

  lemma {:induction false} PlacedAll(specs: seq<Specialty>, writes: seq<SectionWrite>)
    requires |writes| == |specs|
    requires forall i :: 0 <= i < |writes| ==> writes[i] == Stored
    ensures Placed(specs, writes) == specs
  {
    if |specs| > 0 {
      var n := |specs| - 1;
      assert forall i :: 0 <= i < n ==> writes[..n][i] == Stored;
      PlacedAll(specs[..n], writes[..n]);
      assert specs == specs[..n] + [specs[n]];
    }
  }

  /** The course and the counter after the specialty sections: each is
      written at position `counter`, which advances only when the write
      succeeds. */
  function LayoutSpecialties(c: Course, specs: seq<Specialty>, writes: seq<SectionWrite>, aesId: int): (Course, nat)
    requires |writes| == |specs|
  {
    if |specs| == 0 then (c, 0)
    else
      var n := |specs| - 1;
      var (c1, k) := LayoutSpecialties(c, specs[..n], writes[..n], aesId);
      var w := InsertCourseSection(c1, SpecialtySection(specs[n], aesId), k, writes[n]);
      (w.1, if w.0 then k + 1 else k)
  }

  /** ... followed by the final test at the position reached. */
  function Layout(c: Course, specs: seq<Specialty>, writes: seq<SectionWrite>, aesId: int,
                  codigo: string, finalWrite: SectionWrite): (Course, nat)
    requires |writes| == |specs|
  {
    var (c1, k) := LayoutSpecialties(c, specs, writes, aesId);
    var w := InsertCourseSection(c1, FinalTestSection(codigo), k, finalWrite);
    (w.1, if w.0 then k + 1 else k)
  }

  /** The section positions hold the placed specialties contiguously from 0. */
  ghost predicate Contiguous(c: Course, c': Course, placed: seq<Specialty>, aesId: int)
  {
    && c' == c.(sections := c'.sections, numsections := c'.numsections)
    && (forall j :: 0 <= j < |placed| ==>
          j in c'.sections && c'.sections[j] == SpecialtySection(placed[j], aesId))
    && (forall p :: p in c'.sections ==> p in c.sections || 0 <= p <= |placed|)
    && (forall p :: p in c.sections && p > |placed| ==> p in c'.sections && c'.sections[p] == c.sections[p])
    && c'.numsections == if |placed| >= 2 then |placed| - 1 else c.numsections
  }

  /** One write at the next free position keeps the layout contiguous. */
  lemma ContiguousStep(c: Course, c1: Course, placed: seq<Specialty>, x: Specialty, aesId: int, w: SectionWrite)
    requires Contiguous(c, c1, placed, aesId)
    ensures var r := InsertCourseSection(c1, SpecialtySection(x, aesId), |placed|, w);
      Contiguous(c, r.1, if r.0 then placed + [x] else placed, aesId)
  {
    var r := InsertCourseSection(c1, SpecialtySection(x, aesId), |placed|, w);
    if r.0 {
      var placed' := placed + [x];
      assert forall j :: 0 <= j < |placed| ==> placed'[j] == placed[j];
      assert r.1.sections == c1.sections[|placed| := SpecialtySection(x, aesId)];
    }
  }

  /** The layout property carries over from all specialties but the last
      to all of them. */
  lemma LayoutSpecialtiesExtend(c: Course, specs: seq<Specialty>, writes: seq<SectionWrite>, aesId: int)
    requires |writes| == |specs| && |specs| > 0
    requires var n := |specs| - 1;
      && LayoutSpecialties(c, specs[..n], writes[..n], aesId).1 == |Placed(specs[..n], writes[..n])|
      && Contiguous(c, LayoutSpecialties(c, specs[..n], writes[..n], aesId).0, Placed(specs[..n], writes[..n]), aesId)
    ensures LayoutSpecialties(c, specs, writes, aesId).1 == |Placed(specs, writes)|
    ensures Contiguous(c, LayoutSpecialties(c, specs, writes, aesId).0, Placed(specs, writes), aesId)
  {
    var n := |specs| - 1;
    var c1 := LayoutSpecialties(c, specs[..n], writes[..n], aesId).0;
    ContiguousStep(c, c1, Placed(specs[..n], writes[..n]), specs[n], aesId, writes[n]);
  }

  /** After the specialty loop, the counter is the number of successful
      writes and those specialties sit at positions 0..counter-1 in source
      order; nothing beyond position counter was touched, and `numsections`
      is the last position a counted insert reached. */
  lemma {:induction false} LayoutSpecialtiesContiguous(c: Course, specs: seq<Specialty>, writes: seq<SectionWrite>, aesId: int)
    requires |writes| == |specs|
    ensures LayoutSpecialties(c, specs, writes, aesId).1 == |Placed(specs, writes)|
    ensures Contiguous(c, LayoutSpecialties(c, specs, writes, aesId).0, Placed(specs, writes), aesId)
  {
    if |specs| > 0 {
      var n := |specs| - 1;
      LayoutSpecialtiesContiguous(c, specs[..n], writes[..n], aesId);
      LayoutSpecialtiesExtend(c, specs, writes, aesId);
    }
  }

  /** create_module's section layout: successful specialties at positions
      0..k-1 in source order, the final test at position k (when its write
      went through and, at position 0, was counted), no other position
      touched, and the counter at k plus one for a counted final test. */
  lemma LayoutContiguous(c: Course, specs: seq<Specialty>, writes: seq<SectionWrite>, aesId: int,
                         codigo: string, finalWrite: SectionWrite)
    requires |writes| == |specs|
    ensures var (c', counter) := Layout(c, specs, writes, aesId, codigo, finalWrite);
      var k := |Placed(specs, writes)|;
      && counter == k + (if finalWrite == Stored then 1 else 0)
      && c' == c.(sections := c'.sections, numsections := c'.numsections)
      && (forall j :: 0 <= j < k ==> j in c'.sections && c'.sections[j] == SpecialtySection(Placed(specs, writes)[j], aesId))
      && (finalWrite == Stored || (finalWrite == StoredWithoutCount && k > 0) ==>
            k in c'.sections && c'.sections[k] == FinalTestSection(codigo))
      && (forall p :: p in c'.sections ==> p in c.sections || 0 <= p <= k)
      && (forall p :: p in c.sections && p > k ==> p in c'.sections && c'.sections[p] == c.sections[p])
      && c'.numsections == if counter >= 2 then counter - 1 else c.numsections
  {
    LayoutSpecialtiesContiguous(c, specs, writes, aesId);
  }

  /** One more specialty extends the layout by one write. */
  lemma LayoutSpecialtiesStep(c: Course, specs: seq<Specialty>, writes: seq<SectionWrite>, aesId: int, i: nat)
    requires |writes| == |specs| && i < |specs|
    ensures var (c1, k) := LayoutSpecialties(c, specs[..i], writes[..i], aesId);
      var w := InsertCourseSection(c1, SpecialtySection(specs[i], aesId), k, writes[i]);
      LayoutSpecialties(c, specs[..i + 1], writes[..i + 1], aesId) == (w.1, if w.0 then k + 1 else k)
  {
    assert specs[..i + 1][..i] == specs[..i];
    assert writes[..i + 1][..i] == writes[..i];
  }

  /** The section loop of create_module, as the source runs it. */
  method AddSections(c: Course, specs: seq<Specialty>, writes: seq<SectionWrite>,
                     aesId: int, codigo: string, finalWrite: SectionWrite)
    returns (c': Course, counter: nat)
    requires |writes| == |specs|
    ensures (c', counter) == Layout(c, specs, writes, aesId, codigo, finalWrite)
  {
    c' := c;
    counter := 0;
    var i := 0;
    while i < |specs|
      invariant 0 <= i <= |specs|
      invariant (c', counter) == LayoutSpecialties(c, specs[..i], writes[..i], aesId)
    {
      var written := InsertCourseSection(c', SpecialtySection(specs[i], aesId), counter, writes[i]);
      LayoutSpecialtiesStep(c, specs, writes, aesId, i);
      c' := written.1;
      if written.0 {
        counter := counter + 1;
      }
      i := i + 1;
    }
    assert specs[..i] == specs;
    assert writes[..i] == writes;
    var finaltest := InsertCourseSection(c', FinalTestSection(codigo), counter, finalWrite);
    c' := finaltest.1;
    if finaltest.0 {
      counter := counter + 1;
    }
  }
}
