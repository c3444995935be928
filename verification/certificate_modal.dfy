/**
 * The certificate preview modal: a read-only table of certificate records,
 * the id of the certificate last asked for, and the modal's visible fields,
 * display and scroll-lock flags and verify button.
 *
 * The DOM is represented by the values the handlers write into it; the
 * popup window and the page navigation are returned as outcomes.
 */
module CertificateModal {
  import opened Wrappers

  /** One entry of the certificate table. */
  datatype Certificate = Certificate(
    title: string,
    issuer: string,
    date: string,
    image: string,
    description: string,
    verifyLink: string)

  /** The certificate table, keyed `cert1` .. `cert14`. */
  const CertificateData: map<string, Certificate> := map[
    "cert1" := Certificate(
      "Introduction to Cybersecurity",
      "Cisco",
      "Issued: 2026",
      "images/certs/Intro-to-Cybersec.jpg",
      "Fundamentals of cyber threats, security principles, and defensive strategies.",
      "https://www.credly.com/badges/85ef00ac-bd00-4ad8-accf-d537ebbe4bfb/public_url"),
    "cert2" := Certificate(
      "Operating Systems Basics",
      "Cisco",
      "Issued: 2025",
      "images/certs/OS-Basics.jpg",
      "Core concepts of operating systems, processes, memory, and system management.",
      "https://www.credly.com/badges/282c243b-03f1-49fa-ab6c-2fad7cfdb45d/public_url"),
    "cert3" := Certificate(
      "Python Essentials 1",
      "Cisco",
      "Issued: 2025",
      "images/certs/Py-Ess1.jpg",
      "Foundational Python programming concepts, syntax, and problem-solving.",
      "https://www.credly.com/badges/215abba6-467d-4309-b5c8-f3135a1d896a/public_url"),
    "cert4" := Certificate(
      "Python Essentials 2",
      "Cisco",
      "Issued: 2025",
      "images/certs/Py-Ess2.jpg",
      "Intermediate Python skills including OOP, modules, and data handling.",
      "https://www.credly.com/badges/72a64fa4-e3e5-44d9-862d-f361cc876d64/public_url"),
    "cert5" := Certificate(
      "Civil Service Eligibility (Professional)",
      "Civil Service Commission ",
      "Issued: 2025",
      "images/certs/CSE.jpg",
      "Certified eligibility for professional positions in Philippine government service.",
      "https://csevs.csc.gov.ph/user/eligibility"),
    "cert6" := Certificate(
      "NC-II Certificate",
      "Tesda",
      "Issued: 2024",
      "images/certs/NC2.jpg",
      "National certification validating technical and vocational competency in the assigned specialization.",
      "https://t2mis.tesda.gov.ph/Learners/S/78004C00580031004C004100390033003000320051005000680037004D0058004F005600730049004E0038002F0057004B0038006F005800570066004500360032004A003900480046005800440053007100700049003D00"),
    "cert7" := Certificate(
      "Hack4Gov 2025",
      "DICT",
      "Issued: 2025",
      "images/certs/h4g.jpeg",
      "Participated in a government-focused CTF covering cybersecurity, forensics, and problem-solving challenges.",
      "no-verify.html"),
    "cert8" := Certificate(
      "Trend Micro University Capture the Flag Participant",
      "Trend Micro",
      "Issued: 2025",
      "images/certs/uctf.jpg",
      "Engaged in hands-on security challenges involving threat analysis, networking, and defensive techniques.",
      "no-verify.html"),
    "cert9" := Certificate(
      "Kaspersky CTF Participant",
      "Kaspersky",
      "Issued: 2025",
      "images/certs/Kasp.jpg",
      "Competed in cybersecurity challenges emphasizing malware analysis, cryptography, and system security.",
      "no-verify.html"),
    "cert10" := Certificate(
      "RegCon 2025 \U{2013} Certificate of Achievement (SUMOBOT)",
      "ICPEP Region 2",
      "Issued: 2026",
      "images/certs/sumo.jpeg",
      "Recognized for competitive performance in a robotics sumobot competition.",
      "no-verify.html"),
    "cert11" := Certificate(
      "RegCon 2024 \U{2013} Certificate of Participation(1)",
      "ICPEP Region 2",
      "Issued: 2025",
      "images/certs/regcon241.jpeg",
      "Active participation in ICPEP Regional Convention technical activities and seminars.",
      "no-verify.html"),
    "cert12" := Certificate(
      "RegCon 2024 \U{2013} Certificate of Participation(2)",
      "ICPEP Region 2",
      "Issued: 2025",
      "images/certs/regcon242.jpeg",
      "Active participation in ICPEP Regional Convention technical activities and seminars.",
      "no-verify.html"),
    "cert13" := Certificate(
      "RegCon 2025 \U{2013} Certificate of Participation(1)",
      "ICPEP Region 2",
      "Issued: 2026",
      "images/certs/regcon251.jpeg",
      "Continued engagement in regional engineering events and skill-building sessions.",
      "no-verify.html"),
    "cert14" := Certificate(
      "RegCon 2025 \U{2013} Certificate of Participation(2)",
      "ICPEP Region 2",
      "Issued: 2026",
      "images/certs/regcon252.jpeg",
      "Continued engagement in regional engineering events and skill-building sessions.",
      "no-verify.html")
  ]

  /** What the modal's handlers write into the page. */
  datatype ModalView = ModalView(
    /** The global `currentCertId`; `None` is JavaScript's `null`. */
    currentCertId: Option<string>,
    /** The `textContent` of the title, issuer and description elements. */
    title: string,
    issuerLine: string,
    description: string,
    /** The `src` and `alt` of the modal's image. */
    imageSrc: string,
    imageAlt: string,
    /** The `href`, `target` and `rel` attributes of the verify button. */
    verifyHref: string,
    verifyTarget: string,
    verifyRel: string,
    /** The click listeners on the verify button, each by the link it captured. */
    verifyListeners: seq<string>,
    /** The modal's `style.display` and the body's `style.overflow`. */
    display: string,
    bodyOverflow: string)

  /**
   * The page before any handler has run: no certificate, no listener on the
   * verify button and no inline styles; what the markup itself puts in the
   * modal's fields is written as empty.
   */
  const Initial: ModalView := ModalView(None, "", "", "", "", "", "", "", "", [], "", "")

  /** The separator between issuer and date on the issuer line. */
  const IssuerSeparator: string := " | "

  /** `certificateData[certId]` over a table, with an absent id as `None`. */
  function Lookup(table: map<string, Certificate>, id: string): (r: Option<Certificate>)
    ensures r.Some? <==> id in table
    ensures r.Some? ==> r.value == table[id]
  {
    if id in table then Some(table[id]) else None
  }

  /**
   * `openCertificate(id)`: the id is recorded first; an id absent from the
   * table returns early; otherwise the fields are filled from the record,
   * the verify button is replaced by a listener-free clone that gets one
   * listener capturing the record's link, and the modal is shown with page
   * scrolling suspended.
   */
  function Opened(table: map<string, Certificate>, s: ModalView, id: string): (r: ModalView)
    ensures r.currentCertId == Some(id)
  {
    var s := s.(currentCertId := Some(id));
    match Lookup(table, id)
    case None => s
    case Some(cert) =>
      s.(title := cert.title,
         issuerLine := cert.issuer + IssuerSeparator + cert.date,
         imageSrc := cert.image,
         imageAlt := cert.title,
         description := cert.description,
         verifyHref := cert.verifyLink,
         verifyTarget := "_blank",
         verifyRel := "noopener noreferrer",
         verifyListeners := [cert.verifyLink],
         display := "block",
         bodyOverflow := "hidden")
  }

  /** `closeCertificate()`: hide the modal, restore scrolling, forget the id. */
  function Closed(s: ModalView): (r: ModalView)
    ensures r.currentCertId == None && r.display == "none" && r.bodyOverflow == "auto"
    ensures r.verifyListeners == s.verifyListeners && r.verifyHref == s.verifyHref && r.title == s.title
  {
    s.(display := "none", bodyOverflow := "auto", currentCertId := None)
  }

  /** Where a click lands, as seen by the window's click listener. */
  datatype ClickTarget =
    | Backdrop      // the modal element itself, i.e. the dimmed area around the content
    | ModalContent  // inside `.modal-content` or `.modal-body`, whose listeners stop propagation
    | Elsewhere     // any other element of the page

  /** The window click handler: only a click on the backdrop itself closes. */
  function WindowClick(s: ModalView, target: ClickTarget): (r: ModalView)
    ensures target == Backdrop ==> r.display == "none" && r.currentCertId == None
    ensures target != Backdrop ==> r == s
  {
    if target == Backdrop then Closed(s) else s
  }

  /** The document keydown handler of the modal: Escape closes. */
  function KeyDown(s: ModalView, key: string): (r: ModalView)
    ensures key == "Escape" ==> r.display == "none" && r.currentCertId == None
    ensures key != "Escape" ==> r == s
  {
    if key == "Escape" then Closed(s) else s
  }

  /** What `window.open` hands back: `null`, or a window whose `closed` may be undefined. */
  datatype WindowHandle = NullWindow | Window(closed: Option<bool>)

  /** What a verify listener does with the page. */
  datatype Navigation =
    | OpenedInNewTab(url: string)
    | PopupBlockedFallback(url: string)  // an alert, then the current page navigates to url

  /** The popup test: no handle, a closed window, or a window whose `closed` is undefined. */
  predicate PopupBlocked(h: WindowHandle) {
    h.NullWindow? || h.closed != Some(false)
  }

  /** One verify listener, bound to the link it captured when it was added. */
  function VerifyListener(link: string, h: WindowHandle): (r: Navigation)
    ensures r.url == link
    ensures r.PopupBlockedFallback? <==> PopupBlocked(h)
  {
    if PopupBlocked(h) then PopupBlockedFallback(link) else OpenedInNewTab(link)
  }

  /** A click on the verify button runs every listener bound to it, in order. */
  function ClickVerify(s: ModalView, h: WindowHandle): (r: seq<Navigation>)
    ensures |r| == |s.verifyListeners|
    ensures forall i :: 0 <= i < |r| ==> r[i].url == s.verifyListeners[i]
  {
    seq(|s.verifyListeners|, i requires 0 <= i < |s.verifyListeners| => VerifyListener(s.verifyListeners[i], h))
  }

  /** The visible fields and the verify button show record `c`. */
  predicate Shows(s: ModalView, c: Certificate) {
    && s.title == c.title
    && s.issuerLine == c.issuer + IssuerSeparator + c.date
    && s.imageSrc == c.image
    && s.imageAlt == c.title
    && s.description == c.description
    && s.verifyHref == c.verifyLink
  }

  /**
   * The invariant the clone at every open keeps: at most one listener is
   * bound, it is bound to the link in the button's `href`, and once bound
   * the modal shows some record of the table whose link that is.
   */
  predicate Consistent(table: map<string, Certificate>, s: ModalView) {
    && (s.verifyListeners == [] || s.verifyListeners == [s.verifyHref])
    && (s.display == "block" ==> s.verifyListeners != [])
    && (s.verifyListeners != [] ==>
          exists id :: id in table && Shows(s, table[id]))
  }

  /** Opening an id of the table shows exactly that record, visibly, with scrolling locked. */
  lemma OpenKnown(table: map<string, Certificate>, s: ModalView, id: string)
    requires id in table
    ensures var r, c := Opened(table, s, id), table[id];
      && r.currentCertId == Some(id)
      && Shows(r, c)
      && r.issuerLine == c.issuer + " | " + c.date
      && r.verifyTarget == "_blank" && r.verifyRel == "noopener noreferrer"
      && r.verifyListeners == [c.verifyLink]
      && r.display == "block" && r.bodyOverflow == "hidden"
  {
  }

  /**
   * Opening an id absent from the table changes only `currentCertId`: no
   * field, listener, visibility or overflow value moves.
   */
  lemma OpenUnknown(table: map<string, Certificate>, s: ModalView, id: string)
    requires id !in table
    ensures Opened(table, s, id) == s.(currentCertId := Some(id))
    ensures Opened(table, s, id).currentCertId != s.currentCertId <==> s.currentCertId != Some(id)
  {
  }

  /**
   * Because the id is recorded before the lookup, an unknown id leaves the
   * previous certificate on screen while `currentCertId` names the unknown one.
   */
  lemma UnknownOpenLeavesStaleModal()
    ensures var r := Opened(CertificateData, Opened(CertificateData, Initial, "cert1"), "cert15");
      && r.display == "block"
      && r.currentCertId == Some("cert15")
      && "cert15" !in CertificateData
      && Shows(r, CertificateData["cert1"])
  {
  }

  /** Closing resets the session, the visibility and the scroll lock; it is idempotent. */
  lemma CloseResets(table: map<string, Certificate>, s: ModalView, id: string)
    ensures var r := Closed(Opened(table, s, id));
      r.currentCertId == None && r.display == "none" && r.bodyOverflow == "auto"
    ensures Closed(Closed(s)) == Closed(s)
  {
  }

  /**
   * Escape always closes; any other key leaves the modal alone. A window
   * click closes exactly when it lands on the backdrop.
   */
  lemma DismissTriggers(s: ModalView, key: string, target: ClickTarget)
    ensures KeyDown(s, "Escape") == Closed(s)
    ensures key != "Escape" ==> KeyDown(s, key) == s
    ensures WindowClick(s, Backdrop) == Closed(s)
    ensures target != Backdrop ==> WindowClick(s, target) == s
  {
  }

  /**
   * The verify button follows the latest successful open: after opening B,
   * whatever was opened before, a click runs one listener, bound to B's link.
   */
  lemma LatestOpenWins(table: map<string, Certificate>, s: ModalView, a: string, b: string, h: WindowHandle)
    requires a in table && b in table
    ensures ClickVerify(Opened(table, Opened(table, s, a), b), h) == [VerifyListener(table[b].verifyLink, h)]
    ensures table[a].verifyLink != table[b].verifyLink ==>
      forall n :: n in ClickVerify(Opened(table, Opened(table, s, a), b), h) ==> n.url != table[a].verifyLink
  {
  }

  /** Every handler keeps the invariant. */
  lemma HandlersKeepConsistent(table: map<string, Certificate>, s: ModalView, id: string, key: string, target: ClickTarget)
    requires Consistent(table, s)
    ensures Consistent(table, Opened(table, s, id))
    ensures Consistent(table, Closed(s))
    ensures Consistent(table, KeyDown(s, key))
    ensures Consistent(table, WindowClick(s, target))
  {
  }

  /** The events the modal reacts to. */
  datatype Event =
    | OpenEvent(id: string)
    | CloseEvent
    | KeyEvent(key: string)
    | ClickEvent(target: ClickTarget)

  function Handle(table: map<string, Certificate>, s: ModalView, e: Event): ModalView {
    match e
    case OpenEvent(id) => Opened(table, s, id)
    case CloseEvent => Closed(s)
    case KeyEvent(key) => KeyDown(s, key)
    case ClickEvent(target) => WindowClick(s, target)
  }

  /** The page after the events `es`, in order, from the initial page. */
  function Replay(table: map<string, Certificate>, es: seq<Event>): ModalView {
    if es == [] then Initial else Handle(table, Replay(table, es[..|es| - 1]), es[|es| - 1])
  }

  /**
   * Whatever happened since page load, the verify button runs at most one
   * listener, and when the modal is visible that listener goes to the link
   * of a record of the table that the modal is showing.
   */
  lemma {:induction false} VerifyMatchesShown(table: map<string, Certificate>, es: seq<Event>, h: WindowHandle)
    ensures Consistent(table, Replay(table, es))
    ensures |ClickVerify(Replay(table, es), h)| <= 1
    ensures Replay(table, es).display == "block" ==>
      exists id :: id in table && Shows(Replay(table, es), table[id]) &&
        ClickVerify(Replay(table, es), h) == [VerifyListener(table[id].verifyLink, h)]
  {
    if es != [] {
      var e := es[|es| - 1];
      VerifyMatchesShown(table, es[..|es| - 1], h);
      match e
      case OpenEvent(id) => HandlersKeepConsistent(table, Replay(table, es[..|es| - 1]), id, "", Elsewhere);
      case CloseEvent => HandlersKeepConsistent(table, Replay(table, es[..|es| - 1]), "", "", Elsewhere);
      case KeyEvent(key) => HandlersKeepConsistent(table, Replay(table, es[..|es| - 1]), "", key, Elsewhere);
      case ClickEvent(t) => HandlersKeepConsistent(table, Replay(table, es[..|es| - 1]), "", "", t);
    }
    var s := Replay(table, es);
    if s.display == "block" {
      var id :| id in table && Shows(s, table[id]);
      assert s.verifyListeners == [table[id].verifyLink];
    }
  }

  /** The modal's globals and DOM fields, updated in place by its handlers. */
  class Controller {
    /** The page's `certificateData`. */
    const table: map<string, Certificate>
    var currentCertId: Option<string>
    var title: string
    var issuerLine: string
    var description: string
    var imageSrc: string
    var imageAlt: string
    var verifyHref: string
    var verifyTarget: string
    var verifyRel: string
    var verifyListeners: seq<string>
    var display: string
    var bodyOverflow: string

    function Snapshot(): ModalView
      reads this
    {
      ModalView(currentCertId, title, issuerLine, description, imageSrc, imageAlt,
                verifyHref, verifyTarget, verifyRel, verifyListeners, display, bodyOverflow)
    }

    ghost predicate Valid()
      reads this
    {
      Consistent(table, Snapshot())
    }

    constructor ()
      ensures Valid() && Snapshot() == Initial && table == CertificateData
    {
      table := CertificateData;
      currentCertId := None;
      title, issuerLine, description := "", "", "";
      imageSrc, imageAlt := "", "";
      verifyHref, verifyTarget, verifyRel := "", "", "";
      verifyListeners := [];
      display, bodyOverflow := "", "";
    }

    /** `openCertificate(id)`. */
    method Open(id: string)
      requires Valid()
      modifies this
      ensures Valid() && Snapshot() == Opened(table, old(Snapshot()), id)
    {
      ghost var before := Snapshot();
      currentCertId := Some(id);
      var cert := Lookup(table, id);
      if cert.None? {
        HandlersKeepConsistent(table, before, id, "", Elsewhere);
        return;
      }
      var c := cert.value;
      Populate(c);
      BindVerify(c.verifyLink);
      display := "block";
      bodyOverflow := "hidden";
      assert Shows(Snapshot(), table[id]);
    }

    /** The text and image fields filled from record `c`. */
    method Populate(c: Certificate)
      modifies this
      ensures Snapshot() == old(Snapshot()).(title := c.title,
        issuerLine := c.issuer + IssuerSeparator + c.date,
        imageSrc := c.image, imageAlt := c.title, description := c.description)
    {
      title := c.title;
      issuerLine := c.issuer + IssuerSeparator + c.date;
      imageSrc := c.image;
      imageAlt := c.title;
      description := c.description;
    }

    /**
     * The verify button's attributes set to `link`, then the button swapped
     * for a clone, which drops every listener, and one listener added that
     * captures `link`.
     */
    method BindVerify(link: string)
      modifies this
      ensures Snapshot() == old(Snapshot()).(verifyHref := link,
        verifyTarget := "_blank", verifyRel := "noopener noreferrer", verifyListeners := [link])
    {
      verifyHref := link;
      verifyTarget := "_blank";
      verifyRel := "noopener noreferrer";
      verifyListeners := [];
      verifyListeners := verifyListeners + [link];
    }

    /** `closeCertificate()`. */
    method Close()
      requires Valid()
      modifies this
      ensures Valid() && Snapshot() == Closed(old(Snapshot()))
    {
      HandlersKeepConsistent(table, Snapshot(), "", "", Elsewhere);
      display := "none";
      bodyOverflow := "auto";
      currentCertId := None;
    }

    /** The window's click listener. */
    method OnWindowClick(target: ClickTarget)
      requires Valid()
      modifies this
      ensures Valid() && Snapshot() == WindowClick(old(Snapshot()), target)
    {
      if target == Backdrop {
        Close();
      }
    }

    /** The document's keydown listener for Escape. */
    method OnKeyDown(key: string)
      requires Valid()
      modifies this
      ensures Valid() && Snapshot() == KeyDown(old(Snapshot()), key)
    {
      if key == "Escape" {
        Close();
      }
    }

    /**
     * A click on the verify button: each bound listener calls `window.open`
     * with its captured link, and `h` is the handle the browser gives back.
     * At most one listener runs, and it uses the link in the button's `href`.
     */
    method OnVerifyClick(h: WindowHandle) returns (navigations: seq<Navigation>)
      requires Valid()
      ensures navigations == ClickVerify(Snapshot(), h)
      ensures |navigations| <= 1
      ensures forall n :: n in navigations ==> n.url == verifyHref
      ensures display == "block" ==> navigations == [VerifyListener(verifyHref, h)]
    {
      navigations := [];
      for i := 0 to |verifyListeners|
        invariant navigations == ClickVerify(Snapshot(), h)[..i]
      {
        navigations := navigations + [VerifyListener(verifyListeners[i], h)];
      }
    }
  }
}
