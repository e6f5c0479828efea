/**
 * The coach record of the admin screens (`CoachDetail`): a row of the `coaches` table as
 * the roster and the form see it. A record that has no `id` yet (a draft) carries the
 * empty string, which the roster's `!coach.id` test treats like a missing id.
 */
module CoachRecord {
  import opened Wrappers

  datatype FullBio = FullBio(intro: string, background: string, present: string)

  /** `social_links`: each link may be missing from the object. */
  datatype SocialLinks = SocialLinks(instagram: Option<string>, youtube: Option<string>, email: Option<string>)

  datatype Coach = Coach(
    id: string,
    name: string,
    role: string,
    bio: string,
    imageUrl: string,
    qualifications: seq<string>,
    socialLinks: SocialLinks,
    orderIndex: int,
    show: bool,
    fullBio: FullBio,
    achievements: seq<string>,
    images: seq<string>)

  /** The ids of a list of coaches, in order: `coaches.map(coach => coach.id)`. */
  function Ids(cs: seq<Coach>): (r: seq<string>)
    ensures |r| == |cs| && forall i :: 0 <= i < |cs| ==> r[i] == cs[i].id
  {
    seq(|cs|, i requires 0 <= i < |cs| => cs[i].id)
  }
}
