/**
 * The Vite client's admin inquiry list. It computes what the Next.js list
 * does, but matches project types exactly, case included, and falls back
 * to a fixed text when an inquiry has no date.
 */
module AdminQueries {
  import opened Wrappers
  import opened Text
  import Seqs
  import InquiriesPage

  type Colour = InquiriesPage.Colour

  /** An inquiry as far as the list computes with it; both fields may be null. */
  datatype Inquiry = Inquiry(projectType: Option<string>, createdAt: Option<string>)

  /** `getProjectTypeColor`: exact matches only; null and anything else are gray. */
  function ProjectTypeColour(t: Option<string>): (c: Colour)
    ensures c == InquiriesPage.Green <==> t == Some(InquiriesPage.Residential)
    ensures c == InquiriesPage.Blue <==> t == Some(InquiriesPage.Commercial)
    ensures c == InquiriesPage.Purple <==> t == Some(InquiriesPage.Industrial)
  {
    match t
    case Some(s) =>
      if s == InquiriesPage.Residential then InquiriesPage.Green
      else if s == InquiriesPage.Commercial then InquiriesPage.Blue
      else if s == InquiriesPage.Industrial then InquiriesPage.Purple
      else InquiriesPage.Gray
    case None => InquiriesPage.Gray
  }

  /** Where this colour is not gray, the case-insensitive list picks the same one. */
  lemma ColourAgreesWithNext(t: string)
    requires ProjectTypeColour(Some(t)) != InquiriesPage.Gray
    ensures InquiriesPage.ProjectTypeColour(t) == ProjectTypeColour(Some(t))
  {
    LowerOfLowered(t);
  }

  /** A capitalised type is gray here, unlike in the Next.js list. */
  lemma CapitalisedTypeIsGray()
    ensures ProjectTypeColour(Some("Residential")) == InquiriesPage.Gray
    ensures InquiriesPage.ProjectTypeColour("Residential") == InquiriesPage.Green
  {
    assert Lower("Residential") == "residential";
  }

  predicate OfType(kind: string, i: Inquiry) { i.projectType == Some(kind) }

  function OfTypeTest(kind: string): Inquiry -> bool { i => OfType(kind, i) }

  /** `inquiries.filter(i => i.projectType === kind).length` */
  function Count(inquiries: seq<Inquiry>, kind: string): (n: nat)
    ensures n <= |inquiries|
  {
    |Seqs.Filter(inquiries, OfTypeTest(kind))|
  }

  /** The three type counters together never exceed `inquiries.length`. */
  lemma {:induction false} CountsWithinTotal(inquiries: seq<Inquiry>)
    ensures Count(inquiries, InquiriesPage.Residential) + Count(inquiries, InquiriesPage.Commercial)
      + Count(inquiries, InquiriesPage.Industrial) <= |inquiries|
  {
    if inquiries != [] {
      CountsWithinTotal(inquiries[1..]);
    }
  }

  /** The same inquiries shown in the Next.js list. */
  function AsNext(i: Inquiry): InquiriesPage.Inquiry {
    InquiriesPage.Inquiry(i.projectType, i.createdAt.GetOr(""))
  }

  /** Exact matching never counts more than the case-insensitive list does (`kind` is lower case). */
  lemma {:induction false} CountAtMostNext(inquiries: seq<Inquiry>, kind: string)
    requires Lower(kind) == kind
    ensures Count(inquiries, kind) <= InquiriesPage.Count(Seqs.Map(inquiries, AsNext), kind)
  {
    if inquiries != [] {
      CountAtMostNext(inquiries[1..], kind);
      var i := inquiries[0];
      if OfType(kind, i) {
        assert InquiriesPage.OfType(kind, AsNext(i));
      }
      assert Seqs.Map(inquiries, AsNext) == [AsNext(i)] + Seqs.Map(inquiries[1..], AsNext);
    }
  }

  const NoDate := "Date not available"

  /** The date line: the formatted date (`formatted`, from the date library), or the fallback. */
  function DateText(createdAt: Option<string>, formatted: string): (r: string)
    ensures !Truthy(createdAt) ==> r == NoDate
    ensures Truthy(createdAt) ==> r == formatted
  {
    if Truthy(createdAt) then formatted else NoDate
  }

  /** The badge: label and colour, only for a non-empty type. */
  function Badge(i: Inquiry): (b: Option<(string, Colour)>)
    ensures b.Some? <==> Truthy(i.projectType)
    ensures b.Some? ==> b.value.0 == InquiriesPage.Capitalised(i.projectType.value)
    ensures b.Some? ==> b.value.1 == ProjectTypeColour(i.projectType)
  {
    if Truthy(i.projectType) then
      Some((InquiriesPage.Capitalised(i.projectType.value), ProjectTypeColour(i.projectType)))
    else None
  }
}
