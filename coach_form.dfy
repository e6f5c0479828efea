/**
 * The coach form: a copy of the coach record being edited, the two "add" inputs and the
 * item being dragged. Each handler replaces the record with an updated copy. The string
 * lists (images, qualifications, achievements) use the value itself as the drag identity.
 *
 * Uploads are inputs: the clock reading, whether the storage upload fails, and the public
 * URL the storage gives for the uploaded path.
 */
module CoachForm {
  import opened Wrappers
  import opened Strings
  import opened Sequences
  import opened CoachRecord

  /** `defaultCoach`: what the form edits when it is given no coach. */
  function DefaultCoach(): Coach {
    Coach("", "", "", "", "", [], SocialLinks(Some(""), None, Some("")), 0, true, FullBio("", "", ""), [], [])
  }

  // ---------------------------------------------------------------------------
  // Fields of the record

  /** The plain text inputs. */
  datatype TextField = Name | Role | Bio

  function TextOf(c: Coach, f: TextField): string {
    match f
    case Name => c.name
    case Role => c.role
    case Bio => c.bio
  }

  /** `setFormData({ ...formData, <f>: text })`. */
  function WithText(c: Coach, f: TextField, text: string): (r: Coach)
    ensures TextOf(r, f) == text
    ensures forall g :: g != f ==> TextOf(r, g) == TextOf(c, g)
    ensures r.(name := c.name, role := c.role, bio := c.bio) == c
  {
    match f
    case Name => c.(name := text)
    case Role => c.(role := text)
    case Bio => c.(bio := text)
  }

  /** The three parts of `full_bio`. */
  datatype BioField = Intro | Background | Present

  function BioOf(b: FullBio, f: BioField): string {
    match f
    case Intro => b.intro
    case Background => b.background
    case Present => b.present
  }

  /** `{ ...formData.full_bio, <f>: text }`. */
  function WithBio(b: FullBio, f: BioField, text: string): (r: FullBio)
    ensures BioOf(r, f) == text
    ensures forall g :: g != f ==> BioOf(r, g) == BioOf(b, g)
  {
    match f
    case Intro => b.(intro := text)
    case Background => b.(background := text)
    case Present => b.(present := text)
  }

  /** A `full_bio` is determined by its three parts. */
  lemma BioExtensional(a: FullBio, b: FullBio)
    requires forall f :: BioOf(a, f) == BioOf(b, f)
    ensures a == b
  {
    assert BioOf(a, Intro) == BioOf(b, Intro);
    assert BioOf(a, Background) == BioOf(b, Background);
    assert BioOf(a, Present) == BioOf(b, Present);
  }

  /** The social links the form edits. */
  datatype LinkField = Instagram | Email

  function LinkOf(l: SocialLinks, f: LinkField): Option<string> {
    match f
    case Instagram => l.instagram
    case Email => l.email
  }

  /** What the link input displays: `formData.social_links.<f> || ''`. */
  function LinkShown(l: SocialLinks, f: LinkField): string {
    LinkOf(l, f).GetOr("")
  }

  /** `{ ...formData.social_links, <f>: text }`: the edited link is set, the others stay. */
  function WithLink(l: SocialLinks, f: LinkField, text: string): (r: SocialLinks)
    ensures LinkOf(r, f) == Some(text) && LinkShown(r, f) == text
    ensures forall g :: g != f ==> LinkOf(r, g) == LinkOf(l, g)
    ensures r.youtube == l.youtube
  {
    match f
    case Instagram => l.(instagram := Some(text))
    case Email => l.(email := Some(text))
  }

  /** The string lists of the record. */
  datatype ListField = Images | Qualifications | Achievements

  function ListOf(c: Coach, f: ListField): seq<string> {
    match f
    case Images => c.images
    case Qualifications => c.qualifications
    case Achievements => c.achievements
  }

  /** `setFormData({ ...formData, <f>: items })`. */
  function WithList(c: Coach, f: ListField, items: seq<string>): (r: Coach)
    ensures ListOf(r, f) == items
    ensures forall g :: g != f ==> ListOf(r, g) == ListOf(c, g)
    ensures r.(images := c.images, qualifications := c.qualifications, achievements := c.achievements) == c
  {
    match f
    case Images => c.(images := items)
    case Qualifications => c.(qualifications := items)
    case Achievements => c.(achievements := items)
  }

  // ---------------------------------------------------------------------------
  // List editing

  /**
   * `handleDragEnd(event, items, setItems)`: a drop with no target or onto the dragged
   * value leaves the list alone; otherwise the first occurrence of the dragged value is
   * moved to the position of the first occurrence of the target value.
   */
  function DragItems(items: seq<string>, active: string, over: Option<string>): (r: seq<string>)
    requires over.Some? ==> active in items && over.value in items
    ensures over.None? || over.value == active ==> r == items
    ensures over.Some? && over.value != active ==>
      && |r| == |items| && multiset(r) == multiset(items)
      && r[FindIndex(items, over.value)] == active
      && RemoveAt(r, FindIndex(items, over.value)) == RemoveAt(items, FindIndex(items, active))
  {
    if over.None? || over.value == active then items
    else
      var from, to := FindIndex(items, active), FindIndex(items, over.value);
      MoveIsPermutation(items, from, to);
      MoveKeepsOthersInOrder(items, from, to);
      MoveLands(items, from, to);
      Move(items, from, to)
  }

  /**
   * With a repeated value the first occurrence is the one that moves: dragging `x` of
   * `[x, y, x]` onto `y` gives `[y, x, x]`.
   */
  lemma DragMovesFirstOccurrence(items: seq<string>, x: string, y: string)
    requires items == [x, y, x] && x != y
    ensures DragItems(items, x, Some(y)) == [y, x, x]
  {
    assert FindIndex(items, x) == 0;
    assert items[1..] == [y, x] && FindIndex(items[1..], y) == 0;
    assert RemoveAt(items, 0) == [y, x];
    assert InsertAt([y, x], 1, x) == [y] + [x] + [x];
  }

  // ---------------------------------------------------------------------------
  // Uploads

  /** `file.name.split('.').pop()`. */
  function FileExtension(name: string): (r: string)
    ensures '.' !in r && |r| <= |name| && r == name[|name| - |r|..]
    ensures '.' !in name ==> r == name
    ensures '.' in name ==> |r| < |name| && name[|name| - |r| - 1] == '.'
  {
    AfterLastIsSuffix(name, '.');
    AfterLast(name, '.')
  }

  /** The storage path of a profile image: `${Date.now()}.${fileExt}`. */
  function ProfileImagePath(now: nat, name: string): string {
    NatToString(now) + "." + FileExtension(name)
  }

  /** The storage path of an additional image: `${Date.now()}_${images.length + 1}.${fileExt}`. */
  function AdditionalImagePath(now: nat, count: nat, name: string): string {
    NatToString(now) + "_" + NatToString(count + 1) + "." + FileExtension(name)
  }

  /** The extension of a storage path is the extension of the uploaded file. */
  lemma UploadPathsKeepExtension(now: nat, count: nat, name: string)
    ensures FileExtension(ProfileImagePath(now, name)) == FileExtension(name)
    ensures FileExtension(AdditionalImagePath(now, count, name)) == FileExtension(name)
  {
    var e := FileExtension(name);
    assert ProfileImagePath(now, name) == NatToString(now) + ['.'] + e;
    AfterLastAfterSeparator(NatToString(now), e, '.');
    var stem := NatToString(now) + "_" + NatToString(count + 1);
    assert AdditionalImagePath(now, count, name) == stem + ['.'] + e;
    AfterLastAfterSeparator(stem, e, '.');
  }

  // ---------------------------------------------------------------------------
  // The form

  class Form {
    /** `formData`. */
    var formData: Coach
    /** The text typed into the qualification and achievement inputs. */
    var newQualification: string
    var newAchievement: string
    /** `activeId`: the value being dragged in the image or qualification list. */
    var activeId: Option<string>

    constructor (coach: Option<Coach>)
      ensures formData == coach.GetOr(DefaultCoach())
      ensures newQualification == "" && newAchievement == "" && activeId.None?
    {
      formData := coach.GetOr(DefaultCoach());
      newQualification := "";
      newAchievement := "";
      activeId := None;
    }

    /** The name, role and bio inputs. */
    method EditText(f: TextField, text: string)
      modifies this
      ensures formData == WithText(old(formData), f, text)
      ensures newQualification == old(newQualification) && newAchievement == old(newAchievement)
      ensures activeId == old(activeId)
    {
      formData := WithText(formData, f, text);
    }

    /** The intro, background and present inputs. */
    method EditBio(f: BioField, text: string)
      modifies this
      ensures formData == old(formData).(fullBio := WithBio(old(formData).fullBio, f, text))
      ensures newQualification == old(newQualification) && newAchievement == old(newAchievement)
      ensures activeId == old(activeId)
    {
      formData := formData.(fullBio := WithBio(formData.fullBio, f, text));
    }

    /** The Instagram and email inputs. */
    method EditLink(f: LinkField, text: string)
      modifies this
      ensures formData == old(formData).(socialLinks := WithLink(old(formData).socialLinks, f, text))
      ensures newQualification == old(newQualification) && newAchievement == old(newAchievement)
      ensures activeId == old(activeId)
    {
      formData := formData.(socialLinks := WithLink(formData.socialLinks, f, text));
    }

    /** The show toggle. */
    method ToggleShow()
      modifies this
      ensures formData == old(formData).(show := !old(formData).show)
      ensures newQualification == old(newQualification) && newAchievement == old(newAchievement)
      ensures activeId == old(activeId)
    {
      formData := formData.(show := !formData.show);
    }

    /** Typing into the qualification input. */
    method TypeQualification(text: string)
      modifies this
      ensures newQualification == text
      ensures formData == old(formData) && newAchievement == old(newAchievement) && activeId == old(activeId)
    {
      newQualification := text;
    }

    /** Typing into the achievement input. */
    method TypeAchievement(text: string)
      modifies this
      ensures newAchievement == text
      ensures formData == old(formData) && newQualification == old(newQualification) && activeId == old(activeId)
    {
      newAchievement := text;
    }

    /** The qualification Add button: a non-empty typed text is appended and the input cleared. */
    method AddQualification()
      modifies this
      ensures old(newQualification) != "" ==>
        formData == WithList(old(formData), Qualifications, old(formData).qualifications + [old(newQualification)]) &&
        newQualification == ""
      ensures old(newQualification) == "" ==> formData == old(formData) && newQualification == ""
      ensures newAchievement == old(newAchievement) && activeId == old(activeId)
    {
      if newQualification != "" {
        formData := WithList(formData, Qualifications, formData.qualifications + [newQualification]);
        newQualification := "";
      }
    }

    /** The achievement Add button. */
    method AddAchievement()
      modifies this
      ensures old(newAchievement) != "" ==>
        formData == WithList(old(formData), Achievements, old(formData).achievements + [old(newAchievement)]) &&
        newAchievement == ""
      ensures old(newAchievement) == "" ==> formData == old(formData) && newAchievement == ""
      ensures newQualification == old(newQualification) && activeId == old(activeId)
    {
      if newAchievement != "" {
        formData := WithList(formData, Achievements, formData.achievements + [newAchievement]);
        newAchievement := "";
      }
    }

    /** The Remove button of an item of list `f`: `items.filter(i => i !== item)`. */
    method Remove(f: ListField, item: string)
      modifies this
      ensures formData == WithList(old(formData), f, RemoveAll(ListOf(old(formData), f), item))
      ensures newQualification == old(newQualification) && newAchievement == old(newAchievement)
      ensures activeId == old(activeId)
    {
      formData := WithList(formData, f, RemoveAll(ListOf(formData, f), item));
    }

    /** A drag starts: only the image and qualification lists track the dragged value. */
    method DragStart(f: ListField, id: string)
      modifies this
      ensures activeId == (if f == Achievements then old(activeId) else Some(id))
      ensures formData == old(formData)
      ensures newQualification == old(newQualification) && newAchievement == old(newAchievement)
    {
      if f != Achievements {
        activeId := Some(id);
      }
    }

    /**
     * A drop in list `f`: the image and qualification lists clear the dragged value first,
     * then every list is rearranged by `DragItems`.
     */
    method DragEnd(f: ListField, active: string, over: Option<string>)
      requires over.Some? ==> active in ListOf(formData, f) && over.value in ListOf(formData, f)
      modifies this
      ensures formData == WithList(old(formData), f, DragItems(ListOf(old(formData), f), active, over))
      ensures activeId == (if f == Achievements then old(activeId) else None)
      ensures newQualification == old(newQualification) && newAchievement == old(newAchievement)
    {
      if f != Achievements {
        activeId := None;
      }
      formData := WithList(formData, f, DragItems(ListOf(formData, f), active, over));
    }

    /**
     * `handleImageUpload(file)` at clock reading `now`: returns the storage path; on success
     * the profile image becomes the public URL, on failure nothing changes.
     */
    method UploadProfileImage(fileName: string, now: nat, uploadFailed: bool, publicUrl: string) returns (path: string)
      modifies this
      ensures path == ProfileImagePath(now, fileName)
      ensures formData == (if uploadFailed then old(formData) else old(formData).(imageUrl := publicUrl))
      ensures newQualification == old(newQualification) && newAchievement == old(newAchievement)
      ensures activeId == old(activeId)
    {
      path := ProfileImagePath(now, fileName);
      if !uploadFailed {
        formData := formData.(imageUrl := publicUrl);
      }
    }

    /**
     * `handleAdditionalImageUpload(file)`: on success exactly one URL is appended to the
     * images, on failure nothing changes.
     */
    method UploadAdditionalImage(fileName: string, now: nat, uploadFailed: bool, publicUrl: string) returns (path: string)
      modifies this
      ensures path == AdditionalImagePath(now, |old(formData).images|, fileName)
      ensures uploadFailed ==> formData == old(formData)
      ensures !uploadFailed ==> formData == WithList(old(formData), Images, old(formData).images + [publicUrl])
      ensures newQualification == old(newQualification) && newAchievement == old(newAchievement)
      ensures activeId == old(activeId)
    {
      path := AdditionalImagePath(now, |formData.images|, fileName);
      if !uploadFailed {
        formData := WithList(formData, Images, formData.images + [publicUrl]);
      }
    }

    /** `handleSave`: the record handed to the page's save handler. */
    method Save() returns (data: Coach)
      ensures data == formData
    {
      data := formData;
    }
  }
}
