/**
 * The Next.js admin inquiry list: the colour of a project-type badge, the
 * per-type counters and the badge label. Types are compared after ASCII
 * lower-casing. Dates are formatted by the browser and are not modelled.
 */
module InquiriesPage {
  import opened Wrappers
  import opened Text
  import Seqs

  /** The badge colours, by their Tailwind colour name. */
  datatype Colour = Green | Blue | Purple | Gray

  const Residential := "residential"
  const Commercial := "commercial"
  const Industrial := "industrial"

  /** An inquiry as far as the list computes with it; the server may leave `projectType` out. */
  datatype Inquiry = Inquiry(projectType: Option<string>, createdAt: string)

  /** `getProjectTypeColor`: the type, lower-cased, picks the colour. */
  function ProjectTypeColour(t: string): (c: Colour)
    ensures c == Green <==> Lower(t) == Residential
    ensures c == Blue <==> Lower(t) == Commercial
    ensures c == Purple <==> Lower(t) == Industrial
  {
    var l := Lower(t);
    if l == Residential then Green
    else if l == Commercial then Blue
    else if l == Industrial then Purple
    else Gray
  }

  /** The colour ignores case. */
  lemma ColourIgnoresCase(t: string)
    ensures ProjectTypeColour(Lower(t)) == ProjectTypeColour(t)
  {
    LowerIdempotent(t);
  }

  /** Whether the inquiry counts under `kind`: its type, lower-cased, is `kind`. */
  predicate OfType(kind: string, i: Inquiry) {
    i.projectType.Some? && Lower(i.projectType.value) == kind
  }

  function OfTypeTest(kind: string): Inquiry -> bool { i => OfType(kind, i) }

  /** `inquiries.filter(i => i.projectType?.toLowerCase() === kind).length` */
  function Count(inquiries: seq<Inquiry>, kind: string): (n: nat)
    ensures n <= |inquiries|
  {
    |Seqs.Filter(inquiries, OfTypeTest(kind))|
  }

  /** An inquiry without a type is never counted. */
  lemma UntypedNotCounted(inquiries: seq<Inquiry>, i: Inquiry, kind: string)
    requires i.projectType.None?
    ensures Count(inquiries + [i], kind) == Count(inquiries, kind)
  {
    Seqs.FilterConcat(inquiries, [i], OfTypeTest(kind));
  }

  /** The three type counters together never exceed the total. */
  lemma {:induction false} CountsWithinTotal(inquiries: seq<Inquiry>)
    ensures Count(inquiries, Residential) + Count(inquiries, Commercial) + Count(inquiries, Industrial) <= |inquiries|
  {
    if inquiries != [] {
      CountsWithinTotal(inquiries[1..]);
    }
  }

  /** `type.charAt(0).toUpperCase() + type.slice(1)`, with ASCII upper-casing. */
  function Capitalised(s: string): (r: string)
    ensures |r| == |s|
    ensures s != [] ==> r[0] == ToUpper(s[0]) && r[1..] == s[1..]
  {
    if s == [] then [] else [ToUpper(s[0])] + s[1..]
  }

  /** Capitalising twice is capitalising once. */
  lemma CapitalisedIdempotent(s: string)
    ensures Capitalised(Capitalised(s)) == Capitalised(s)
  {
  }

  /** The badge of an inquiry: its label and colour, only for a non-empty type. */
  function Badge(i: Inquiry): (b: Option<(string, Colour)>)
    ensures b.Some? <==> Truthy(i.projectType)
    ensures b.Some? ==> b.value.0 == Capitalised(i.projectType.value) && b.value.1 == ProjectTypeColour(i.projectType.value)
  {
    if Truthy(i.projectType) then
      var t := i.projectType.value;
      Some((Capitalised(t), ProjectTypeColour(t)))
    else None
  }

  /** A counted inquiry shows a badge of its counter's colour. */
  lemma CountedBadge(i: Inquiry)
    requires OfType(Residential, i)
    ensures Badge(i).Some? && Badge(i).value.1 == Green
  {
  }
}
