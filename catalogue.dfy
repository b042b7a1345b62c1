/** The built-in form templates and the three queries over them (lib/templates.ts). */
module Catalogue {
  import opened Results
  import opened Schema
  import Seqs

  datatype TemplateQuestion = TemplateQuestion(
    text: string, placeholder: Option<string>, qtype: QuestionType, options: Option<seq<string>>)

  datatype FormTemplate = FormTemplate(
    id: string, name: string, description: string, icon: string, category: string,
    questions: seq<TemplateQuestion>)

  /** `getTemplateById`: the first template with the given id, if any. */
  function TemplateById(templates: seq<FormTemplate>, id: string): (r: Option<FormTemplate>)
    ensures r.Some? ==> r.value.id == id
  {
    Seqs.Find(templates, (t: FormTemplate) => t.id == id)
  }

  /** The lookup finds nothing exactly when no template has the id, and
      otherwise the first template that has it. */
  lemma TemplateByIdFinds(templates: seq<FormTemplate>, id: string)
    ensures var r := TemplateById(templates, id);
      (r.None? <==> forall i :: 0 <= i < |templates| ==> templates[i].id != id)
      && (r.Some? ==> exists i :: 0 <= i < |templates| && templates[i] == r.value
                                 && forall j :: 0 <= j < i ==> templates[j].id != id)
  {
    var p := (t: FormTemplate) => t.id == id;
    Seqs.FindNone(templates, p);
    if Seqs.Find(templates, p).Some? {
      Seqs.FindFirst(templates, p);
    }
  }

  function GetTemplateById(id: string): Option<FormTemplate> {
    TemplateById(FormTemplates, id)
  }

  predicate IdsDistinct(templates: seq<FormTemplate>) {
    forall i, j :: 0 <= i < j < |templates| ==> templates[i].id != templates[j].id
  }

  /** With distinct ids the lookup is unambiguous: it finds the one template with that id. */
  lemma TemplateByIdUnique(templates: seq<FormTemplate>, i: nat)
    requires IdsDistinct(templates) && i < |templates|
    ensures TemplateById(templates, templates[i].id) == Some(templates[i])
  {
    TemplateByIdFinds(templates, templates[i].id);
    var r := TemplateById(templates, templates[i].id);
    var k :| 0 <= k < |templates| && templates[k] == r.value && r.value.id == templates[i].id
             && forall j :: 0 <= j < k ==> templates[j].id != templates[i].id;
  }

  /** `getTemplatesByCategory`: the templates of one category, in catalogue order. */
  function TemplatesInCategory(templates: seq<FormTemplate>, category: string): (r: seq<FormTemplate>)
    ensures forall i :: 0 <= i < |r| ==> r[i] in templates && r[i].category == category
    ensures forall i :: 0 <= i < |templates| && templates[i].category == category ==> templates[i] in r
  {
    Seqs.FilterSpec(templates, (t: FormTemplate) => t.category == category);
    Seqs.Filter(templates, (t: FormTemplate) => t.category == category)
  }

  function GetTemplatesByCategory(category: string): seq<FormTemplate> {
    TemplatesInCategory(FormTemplates, category)
  }

  /** The selected templates keep their relative catalogue order. */
  lemma {:induction false} TemplatesInCategoryKeepOrder(templates: seq<FormTemplate>, category: string)
    requires IdsDistinct(templates)
    ensures var r := TemplatesInCategory(templates, category);
      forall i, j :: 0 <= i < j < |r| ==> Seqs.FirstIndex(templates, r[i]) < Seqs.FirstIndex(templates, r[j])
  {
    var before := (a: FormTemplate, b: FormTemplate) =>
      a in templates && b in templates && Seqs.FirstIndex(templates, a) < Seqs.FirstIndex(templates, b);
    forall i, j | 0 <= i < j < |templates| ensures before(templates[i], templates[j]) {
      FirstIndexOfDistinct(templates, i);
      FirstIndexOfDistinct(templates, j);
    }
    Seqs.FilterKeepsChain(templates, (t: FormTemplate) => t.category == category, before);
  }

  lemma FirstIndexOfDistinct(templates: seq<FormTemplate>, i: nat)
    requires IdsDistinct(templates) && i < |templates|
    ensures Seqs.FirstIndex(templates, templates[i]) == i
  {
    var k := Seqs.FirstIndex(templates, templates[i]);
    assert templates[k].id == templates[i].id;
  }

  function Categories(templates: seq<FormTemplate>): (r: seq<string>)
    ensures |r| == |templates|
    ensures forall i :: 0 <= i < |r| ==> r[i] == templates[i].category
  {
    seq(|templates|, i requires 0 <= i < |templates| => templates[i].category)
  }

  /** `getAllCategories`: every category once, in order of first use. */
  function AllCategories(templates: seq<FormTemplate>): (r: seq<string>)
    ensures Seqs.NoDuplicates(r)
    ensures forall i :: 0 <= i < |r| ==> exists j :: 0 <= j < |templates| && templates[j].category == r[i]
    ensures forall j :: 0 <= j < |templates| ==> templates[j].category in r
  {
    var all := Categories(templates);
    var r := Seqs.Dedup(all);
    assert forall i :: 0 <= i < |r| ==> r[i] in all;
    assert forall j :: 0 <= j < |templates| ==> all[j] in r;
    r
  }

  function GetAllCategories(): seq<string> {
    AllCategories(FormTemplates)
  }

  /** Categories are listed in the order in which the catalogue first uses them. */
  lemma AllCategoriesFirstUseOrder(templates: seq<FormTemplate>)
    ensures var r := AllCategories(templates); var all := Categories(templates);
      forall i, j :: 0 <= i < j < |r| ==> Seqs.FirstIndex(all, r[i]) < Seqs.FirstIndex(all, r[j])
  {
    Seqs.DedupFirstOccurrenceOrder(Categories(templates));
  }

  /** Length, first and last character of an id, folded into one number;
      the catalogue's ids already differ in these. */
  function IdSignature(id: string): int {
    if id == [] then 0 else |id| * 100000 + (id[0] as int) * 1000 + id[|id| - 1] as int
  }

  const CatalogueSignatures: seq<int> := [799116, 1016103, 1901110, 1799107, 1606110, 1512121, 514112, 1111109, 513122, 2014107, 1319112, 1799110, 1512104, 2399110, 1312110, 1810112, 2218110, 2309110, 2219110, 1098116, 2012116]

  /** The signatures of the first seven catalogue entries. */
  lemma SignatureAtLow(k: nat)
    requires k < 7
    ensures |CatalogueSignatures| == |FormTemplates| && IdSignature(FormTemplates[k].id) == CatalogueSignatures[k]
  {
    if k == 0 { assert FormTemplates[0].id == "contact"; }
    else if k == 1 { assert FormTemplates[1].id == "ticketing"; }
    else if k == 2 { assert FormTemplates[2].id == "event-registration"; }
    else if k == 3 { assert FormTemplates[3].id == "customer-feedback"; }
    else if k == 4 { assert FormTemplates[4].id == "job-application"; }
    else if k == 5 { assert FormTemplates[5].id == "product-survey"; }
    else { assert FormTemplates[6].id == "rsvp"; }
  }

  /** The signatures of the middle seven catalogue entries. */
  lemma SignatureAtMiddle(k: nat)
    requires 7 <= k < 14
    ensures |CatalogueSignatures| == |FormTemplates| && IdSignature(FormTemplates[k].id) == CatalogueSignatures[k]
  {
    if k == 7 { assert FormTemplates[7].id == "order-form"; }
    else if k == 8 { assert FormTemplates[8].id == "quiz"; }
    else if k == 9 { assert FormTemplates[9].id == "restaurant-feedback"; }
    else if k == 10 { assert FormTemplates[10].id == "wedding-rsvp"; }
    else if k == 11 { assert FormTemplates[11].id == "course-evaluation"; }
    else if k == 12 { assert FormTemplates[12].id == "product-launch"; }
    else { assert FormTemplates[13].id == "conference-registration"; }
  }

  /** The signatures of the last seven catalogue entries. */
  lemma SignatureAtHigh(k: nat)
    requires 14 <= k < 21
    ensures |CatalogueSignatures| == |FormTemplates| && IdSignature(FormTemplates[k].id) == CatalogueSignatures[k]
  {
    if k == 14 { assert FormTemplates[14].id == "pet-adoption"; }
    else if k == 15 { assert FormTemplates[15].id == "newsletter-signup"; }
    else if k == 16 { assert FormTemplates[16].id == "volunteer-application"; }
    else if k == 17 { assert FormTemplates[17].id == "membership-application"; }
    else if k == 18 { assert FormTemplates[18].id == "workshop-registration"; }
    else if k == 19 { assert FormTemplates[19].id == "bug-report"; }
    else { assert FormTemplates[20].id == "photography-contest"; }
  }

  /** `CatalogueSignatures` lists the signature of every catalogue id, in order. */
  lemma SignaturesListed()
    ensures |CatalogueSignatures| == |FormTemplates|
    ensures forall k :: 0 <= k < |FormTemplates| ==> IdSignature(FormTemplates[k].id) == CatalogueSignatures[k]
  {
    SignatureAtLow(0);
    forall k | 0 <= k < |FormTemplates| ensures IdSignature(FormTemplates[k].id) == CatalogueSignatures[k] {
      if k < 7 { SignatureAtLow(k); } else if k < 14 { SignatureAtMiddle(k); } else { SignatureAtHigh(k); }
    }
  }

  /** No two catalogue signatures coincide. */
  lemma SignaturesDistinct()
    ensures forall i, j :: 0 <= i < j < |CatalogueSignatures| ==> CatalogueSignatures[i] != CatalogueSignatures[j]
  {
  }

  /** The catalogue's ids are pairwise distinct, so `getTemplateById` is unambiguous. */
  lemma CatalogueIdsDistinct()
    ensures IdsDistinct(FormTemplates)
  {
    SignaturesListed();
    SignaturesDistinct();
  }

  /** The "ticketing" template is the one `getTemplateById("ticketing")` returns. */
  lemma TicketingTemplateFound()
    ensures GetTemplateById("ticketing") == Some(TicketingTemplate)
  {
    CatalogueIdsDistinct();
    TemplateByIdUnique(FormTemplates, 1);
  }

  /** `FORM_TEMPLATES`, in the order the source lists them. */
  const FormTemplates: seq<FormTemplate> := [
    ContactTemplate, TicketingTemplate, EventRegistrationTemplate, CustomerFeedbackTemplate,
    JobApplicationTemplate, ProductSurveyTemplate, RsvpTemplate, OrderFormTemplate,
    QuizTemplate, RestaurantFeedbackTemplate, WeddingRsvpTemplate, CourseEvaluationTemplate,
    ProductLaunchTemplate, ConferenceRegistrationTemplate, PetAdoptionTemplate, NewsletterSignupTemplate,
    VolunteerApplicationTemplate, MembershipApplicationTemplate, WorkshopRegistrationTemplate, BugReportTemplate,
    PhotographyContestTemplate
  ]

  const ContactTemplate: FormTemplate := FormTemplate(
    "contact", "Contact Form", "Collect contact information from visitors", "\U{1F4DE}", "Business", [
      TemplateQuestion("Full Name", Some("Enter your full name"), ShortResponse,
        None),
      TemplateQuestion("Email Address", Some("your.email@example.com"), ShortResponse,
        None),
      TemplateQuestion("Phone Number", Some("+1 (555) 123-4567"), ShortResponse,
        None),
      TemplateQuestion("Subject", Some("What\'s this about?"), ShortResponse,
        None),
      TemplateQuestion("Message", Some("Tell us how we can help you..."), ShortResponse,
        None),
      TemplateQuestion("How did you hear about us?", None, SelectOneOption,
        Some(["Google Search", "Social Media", "Friend/Family", "Advertisement", "Other"]))
    ])

  const TicketingTemplate: FormTemplate := FormTemplate(
    "ticketing", "Ticketing Form", "Form to generate support tickets", "\U{1F3AB}", "Support", [
      TemplateQuestion("Seat Number", Some("Enter your seat number"), ShortResponse,
        None),
      TemplateQuestion("Name", Some("Enter your name"), ShortResponse,
        None),
      TemplateQuestion("Email", Some("your.email@example.com"), ShortResponse,
        None),
      TemplateQuestion("Subject", Some("Subject of your ticket"), ShortResponse,
        None),
      TemplateQuestion("Description", Some("Describe your issue or request"), ShortResponse,
        None)
    ])

  const EventRegistrationTemplate: FormTemplate := FormTemplate(
    "event-registration", "Event Registration", "Register attendees for your event", "\U{1F389}", "Events", [
      TemplateQuestion("Full Name", Some("Enter your full name"), ShortResponse,
        None),
      TemplateQuestion("Email Address", Some("your.email@example.com"), ShortResponse,
        None),
      TemplateQuestion("Phone Number", Some("+1 (555) 123-4567"), ShortResponse,
        None),
      TemplateQuestion("Organization/Company", Some("Your organization name"), ShortResponse,
        None),
      TemplateQuestion("Job Title", Some("Your job title"), ShortResponse,
        None),
      TemplateQuestion("Dietary Restrictions", None, SelectOneOption,
        Some(["None", "Vegetarian", "Vegan", "Gluten-Free", "Other"])),
      TemplateQuestion("Special Accommodations", Some("Any special needs or accommodations?"), ShortResponse,
        None),
      TemplateQuestion("How did you hear about this event?", None, SelectOneOption,
        Some(["Email", "Social Media", "Website", "Friend/Colleague", "Advertisement", "Other"]))
    ])

  const CustomerFeedbackTemplate: FormTemplate := FormTemplate(
    "customer-feedback", "Customer Feedback", "Gather feedback from your customers", "\U{2B50}", "Business", [
      TemplateQuestion("How satisfied are you with our product/service?", None, SelectOneOption,
        Some(["Very Satisfied", "Satisfied", "Neutral", "Dissatisfied", "Very Dissatisfied"])),
      TemplateQuestion("What did you like most about our product/service?", Some("Please share your positive experiences..."), ShortResponse,
        None),
      TemplateQuestion("What areas can we improve?", Some("Please share any suggestions for improvement..."), ShortResponse,
        None),
      TemplateQuestion("Would you recommend us to others?", None, SelectOneOption,
        Some(["Yes, definitely", "Yes, maybe", "Not sure", "Probably not", "No, definitely not"])),
      TemplateQuestion("How likely are you to purchase from us again?", None, SelectOneOption,
        Some(["Very Likely", "Likely", "Neutral", "Unlikely", "Very Unlikely"])),
      TemplateQuestion("Overall satisfaction", None, SelectOneOption,
        Some(["Very Satisfied", "Satisfied", "Neutral", "Dissatisfied", "Very Dissatisfied"]))
    ])

  const JobApplicationTemplate: FormTemplate := FormTemplate(
    "job-application", "Job Application", "Collect job applications from candidates", "\U{1F4BC}", "HR", [
      TemplateQuestion("Full Name", Some("Enter your full name"), ShortResponse,
        None),
      TemplateQuestion("Email Address", Some("your.email@example.com"), ShortResponse,
        None),
      TemplateQuestion("Phone Number", Some("+1 (555) 123-4567"), ShortResponse,
        None),
      TemplateQuestion("Position Applied For", Some("e.g., Software Developer, Marketing Manager"), ShortResponse,
        None),
      TemplateQuestion("Years of Experience", None, SelectOneOption,
        Some(["0-1 years", "1-3 years", "3-5 years", "5-10 years", "10+ years"])),
      TemplateQuestion("Current Employment Status", None, SelectOneOption,
        Some(["Employed", "Unemployed", "Self-employed", "Student", "Retired"])),
      TemplateQuestion("Education Level", None, SelectOneOption,
        Some(["High School", "Associate Degree", "Bachelor\'s Degree", "Master\'s Degree", "Doctorate", "Other"])),
      TemplateQuestion("Why are you interested in this position?", Some("Tell us about your motivation..."), ShortResponse,
        None),
      TemplateQuestion("Relevant Skills", Some("List your key skills and competencies..."), ShortResponse,
        None),
      TemplateQuestion("Availability", None, SelectOneOption,
        Some(["Immediately", "Within 2 weeks", "Within 1 month", "Within 3 months", "More than 3 months"]))
    ])

  const ProductSurveyTemplate: FormTemplate := FormTemplate(
    "product-survey", "Product Survey", "Survey customers about your product", "\U{1F4CA}", "Marketing", [
      TemplateQuestion("How often do you use our product?", None, SelectOneOption,
        Some(["Daily", "Weekly", "Monthly", "Occasionally", "First time"])),
      TemplateQuestion("What features do you use most?", None, SelectMultipleOptions,
        Some(["Core functionality", "Advanced features", "Reporting", "Integration", "Mobile app", "Customer support"])),
      TemplateQuestion("Rate the ease of use", None, SelectOneOption,
        Some(["Very Easy", "Easy", "Moderate", "Difficult", "Very Difficult"])),
      TemplateQuestion("What features would you like to see added?", Some("Please suggest new features..."), ShortResponse,
        None),
      TemplateQuestion("How likely are you to recommend our product?", None, SelectOneOption,
        Some(["10 - Extremely likely", "9", "8", "7", "6", "5", "4", "3", "2", "1 - Not at all likely"])),
      TemplateQuestion("Overall satisfaction", None, SelectOneOption,
        Some(["Very Satisfied", "Satisfied", "Neutral", "Dissatisfied", "Very Dissatisfied"]))
    ])

  const RsvpTemplate: FormTemplate := FormTemplate(
    "rsvp", "RSVP Form", "Collect RSVPs for your event", "\U{1F4C5}", "Events", [
      TemplateQuestion("Full Name", Some("Enter your full name"), ShortResponse,
        None),
      TemplateQuestion("Email Address", Some("your.email@example.com"), ShortResponse,
        None),
      TemplateQuestion("Phone Number", Some("+1 (555) 123-4567"), ShortResponse,
        None),
      TemplateQuestion("Will you be attending?", None, SelectOneOption,
        Some(["Yes, I\'ll be there!", "No, I can\'t make it", "Maybe (please contact me)"])),
      TemplateQuestion("Number of guests attending with you", None, SelectOneOption,
        Some(["0", "1", "2", "3", "4", "5+"])),
      TemplateQuestion("Meal preference", None, SelectOneOption,
        Some(["Chicken", "Fish", "Vegetarian", "Vegan", "No preference"])),
      TemplateQuestion("Any special dietary requirements?", Some("Allergies, restrictions, etc."), ShortResponse,
        None),
      TemplateQuestion("Questions or comments?", Some("Anything else we should know?"), ShortResponse,
        None)
    ])

  const OrderFormTemplate: FormTemplate := FormTemplate(
    "order-form", "Order Form", "Collect orders from customers", "\U{1F6D2}", "Sales", [
      TemplateQuestion("Full Name", Some("Enter your full name"), ShortResponse,
        None),
      TemplateQuestion("Email Address", Some("your.email@example.com"), ShortResponse,
        None),
      TemplateQuestion("Phone Number", Some("+1 (555) 123-4567"), ShortResponse,
        None),
      TemplateQuestion("Shipping Address", Some("Street address, city, state, zip code"), ShortResponse,
        None),
      TemplateQuestion("Product/Service", None, SelectOneOption,
        Some(["Product A", "Product B", "Product C", "Service A", "Service B", "Custom Order"])),
      TemplateQuestion("Quantity", None, SelectOneOption,
        Some(["1", "2", "3", "4", "5", "6-10", "11-20", "20+"])),
      TemplateQuestion("Special Instructions", Some("Any special requests or customizations?"), ShortResponse,
        None),
      TemplateQuestion("How did you hear about us?", None, SelectOneOption,
        Some(["Google Search", "Social Media", "Friend/Family", "Email", "Advertisement", "Other"]))
    ])

  const QuizTemplate: FormTemplate := FormTemplate(
    "quiz", "Quiz/Test", "Create quizzes and assessments", "\U{1F4DD}", "Education", [
      TemplateQuestion("Full Name", Some("Enter your full name"), ShortResponse,
        None),
      TemplateQuestion("Email Address", Some("your.email@example.com"), ShortResponse,
        None),
      TemplateQuestion("What is 2 + 2?", None, SelectOneOption,
        Some(["3", "4", "5", "6"])),
      TemplateQuestion("Which of these are programming languages?", None, SelectMultipleOptions,
        Some(["Python", "HTML", "JavaScript", "Microsoft Word", "Java", "Photoshop"])),
      TemplateQuestion("Explain your answer to question 3", Some("Provide reasoning for your choice..."), ShortResponse,
        None),
      TemplateQuestion("Rate your confidence in your answers", None, SelectOneOption,
        Some(["Very confident", "Somewhat confident", "Not very confident", "Just guessing"]))
    ])

  const RestaurantFeedbackTemplate: FormTemplate := FormTemplate(
    "restaurant-feedback", "Restaurant Feedback", "Collect feedback from restaurant customers", "\U{1F37D}\U{FE0F}", "Hospitality", [
      TemplateQuestion("How would you rate your overall dining experience?", None, SelectOneOption,
        Some(["Excellent", "Very Good", "Good", "Fair", "Poor"])),
      TemplateQuestion("How would you rate the food quality?", None, SelectOneOption,
        Some(["Excellent", "Very Good", "Good", "Fair", "Poor"])),
      TemplateQuestion("How would you rate the service?", None, SelectOneOption,
        Some(["Excellent", "Very Good", "Good", "Fair", "Poor"])),
      TemplateQuestion("How would you rate the ambiance?", None, SelectOneOption,
        Some(["Excellent", "Very Good", "Good", "Fair", "Poor"])),
      TemplateQuestion("What did you enjoy most about your visit?", Some("Please share your favorite part of the experience..."), ShortResponse,
        None),
      TemplateQuestion("What could we improve?", Some("Please share any suggestions for improvement..."), ShortResponse,
        None),
      TemplateQuestion("Would you recommend us to others?", None, SelectOneOption,
        Some(["Definitely", "Probably", "Not sure", "Probably not", "Definitely not"])),
      TemplateQuestion("How likely are you to visit again?", None, SelectOneOption,
        Some(["Very likely", "Likely", "Neutral", "Unlikely", "Very unlikely"]))
    ])

  const WeddingRsvpTemplate: FormTemplate := FormTemplate(
    "wedding-rsvp", "Wedding RSVP", "Elegant RSVP form for wedding invitations", "\U{1F492}", "Events", [
      TemplateQuestion("Will you be attending our wedding celebration?", None, SelectOneOption,
        Some(["Joyfully accepts", "Regretfully declines"])),
      TemplateQuestion("Full Name", Some("Please enter your full name"), ShortResponse,
        None),
      TemplateQuestion("Email Address", Some("your.email@example.com"), ShortResponse,
        None),
      TemplateQuestion("Phone Number", Some("+1 (555) 123-4567"), ShortResponse,
        None),
      TemplateQuestion("Number of guests attending (including yourself)", None, SelectOneOption,
        Some(["1", "2", "3", "4", "5", "6+"])),
      TemplateQuestion("Meal preference for reception", None, SelectOneOption,
        Some(["Chicken", "Fish", "Vegetarian", "Vegan", "No preference"])),
      TemplateQuestion("Do you have any dietary restrictions?", Some("Please specify any allergies or dietary needs"), ShortResponse,
        None),
      TemplateQuestion("Are you bringing any children?", None, SelectOneOption,
        Some(["Yes", "No"])),
      TemplateQuestion("Would you like to leave a message for the couple?", Some("Share your well wishes..."), ShortResponse,
        None)
    ])

  const CourseEvaluationTemplate: FormTemplate := FormTemplate(
    "course-evaluation", "Course Evaluation", "Student feedback for course improvement", "\U{1F4DA}", "Education", [
      TemplateQuestion("Course Name", Some("Enter the course name"), ShortResponse,
        None),
      TemplateQuestion("Instructor Name", Some("Enter the instructor\'s name"), ShortResponse,
        None),
      TemplateQuestion("Overall course rating", None, SelectOneOption,
        Some(["Excellent", "Very Good", "Good", "Fair", "Poor"])),
      TemplateQuestion("The course content was well-organized", None, SelectOneOption,
        Some(["Strongly Agree", "Agree", "Neutral", "Disagree", "Strongly Disagree"])),
      TemplateQuestion("The instructor was knowledgeable", None, SelectOneOption,
        Some(["Strongly Agree", "Agree", "Neutral", "Disagree", "Strongly Disagree"])),
      TemplateQuestion("The course materials were helpful", None, SelectOneOption,
        Some(["Strongly Agree", "Agree", "Neutral", "Disagree", "Strongly Disagree"])),
      TemplateQuestion("The assignments were valuable", None, SelectOneOption,
        Some(["Strongly Agree", "Agree", "Neutral", "Disagree", "Strongly Disagree"])),
      TemplateQuestion("What did you like most about this course?", Some("Please share your positive experiences..."), ShortResponse,
        None),
      TemplateQuestion("What suggestions do you have for improvement?", Some("Please share any constructive feedback..."), ShortResponse,
        None),
      TemplateQuestion("Would you recommend this course to others?", None, SelectOneOption,
        Some(["Definitely", "Probably", "Not sure", "Probably not", "Definitely not"]))
    ])

  const ProductLaunchTemplate: FormTemplate := FormTemplate(
    "product-launch", "Product Launch Interest", "Gauge interest in upcoming product launch", "\U{1F680}", "Marketing", [
      TemplateQuestion("Full Name", Some("Enter your full name"), ShortResponse,
        None),
      TemplateQuestion("Email Address", Some("your.email@example.com"), ShortResponse,
        None),
      TemplateQuestion("Phone Number (optional)", Some("+1 (555) 123-4567"), ShortResponse,
        None),
      TemplateQuestion("How did you hear about our upcoming product?", None, SelectOneOption,
        Some(["Email newsletter", "Social media", "Website", "Friend/colleague", "Advertisement", "Other"])),
      TemplateQuestion("On a scale of 1-10, how interested are you in our new product?", None, SelectOneOption,
        Some(["1", "2", "3", "4", "5", "6", "7", "8", "9", "10"])),
      TemplateQuestion("Which features are you most excited about?", None, SelectMultipleOptions,
        Some(["New design", "Better performance", "Advanced features", "Lower price", "Better quality", "Easier to use"])),
      TemplateQuestion("What is your budget range for this type of product?", None, SelectOneOption,
        Some(["Under $50", "$50-$100", "$100-$250", "$250-$500", "$500-$1000", "Over $1000"])),
      TemplateQuestion("When are you planning to make a purchase?", None, SelectOneOption,
        Some(["Immediately", "Within 1 month", "Within 3 months", "Within 6 months", "Within 1 year", "Just researching"])),
      TemplateQuestion("Any questions or comments?", Some("Feel free to ask questions or share your thoughts..."), ShortResponse,
        None)
    ])

  const ConferenceRegistrationTemplate: FormTemplate := FormTemplate(
    "conference-registration", "Conference Registration", "Professional conference registration form", "\U{1F3A4}", "Events", [
      TemplateQuestion("Full Name", Some("Enter your full name"), ShortResponse,
        None),
      TemplateQuestion("Job Title", Some("Your current job title"), ShortResponse,
        None),
      TemplateQuestion("Organization/Company", Some("Your organization name"), ShortResponse,
        None),
      TemplateQuestion("Email Address", Some("your.email@example.com"), ShortResponse,
        None),
      TemplateQuestion("Phone Number", Some("+1 (555) 123-4567"), ShortResponse,
        None),
      TemplateQuestion("Registration Type", None, SelectOneOption,
        Some(["Full Conference Pass", "Single Day Pass", "Student Pass", "VIP Pass", "Speaker"])),
      TemplateQuestion("Dietary Preferences", None, SelectOneOption,
        Some(["No restrictions", "Vegetarian", "Vegan", "Gluten-free", "Kosher", "Halal", "Other"])),
      TemplateQuestion("Special Accommodations Needed", Some("Please specify any accessibility needs or special requirements"), ShortResponse,
        None),
      TemplateQuestion("Topics you\'re most interested in", None, SelectMultipleOptions,
        Some(["Technology", "Business", "Marketing", "Design", "Leadership", "Innovation", "Networking"])),
      TemplateQuestion("How did you hear about this conference?", None, SelectOneOption,
        Some(["Website", "Email", "Social media", "Colleague", "Advertisement", "Previous attendee", "Other"])),
      TemplateQuestion("Any questions or special requests?", Some("Please let us know if you have any questions..."), ShortResponse,
        None)
    ])

  const PetAdoptionTemplate: FormTemplate := FormTemplate(
    "pet-adoption", "Pet Adoption Application", "Screening form for potential pet adopters", "\U{1F43E}", "Non-Profit", [
      TemplateQuestion("Full Name", Some("Enter your full name"), ShortResponse,
        None),
      TemplateQuestion("Email Address", Some("your.email@example.com"), ShortResponse,
        None),
      TemplateQuestion("Phone Number", Some("+1 (555) 123-4567"), ShortResponse,
        None),
      TemplateQuestion("Home Address", Some("Street address, city, state, zip code"), ShortResponse,
        None),
      TemplateQuestion("Housing Type", None, SelectOneOption,
        Some(["House", "Apartment", "Condo", "Townhouse", "Mobile home", "Other"])),
      TemplateQuestion("Do you own or rent your home?", None, SelectOneOption,
        Some(["Own", "Rent", "Live with parents/family", "Other"])),
      TemplateQuestion("Do you have a yard or outdoor space?", None, SelectOneOption,
        Some(["Large yard", "Small yard", "Balcony/patio", "No outdoor space"])),
      TemplateQuestion("Have you owned pets before?", None, SelectOneOption,
        Some(["Yes, currently", "Yes, in the past", "No, first time"])),
      TemplateQuestion("What type of pet are you interested in?", None, SelectMultipleOptions,
        Some(["Dog", "Cat", "Bird", "Small mammal", "Reptile", "Fish", "Not sure yet"])),
      TemplateQuestion("Do you have other pets in the home?", None, SelectOneOption,
        Some(["Yes", "No"])),
      TemplateQuestion("If yes, please describe your current pets", Some("Species, age, temperament, etc."), ShortResponse,
        None),
      TemplateQuestion("Why do you want to adopt a pet?", Some("Please share your reasons for wanting to adopt..."), ShortResponse,
        None),
      TemplateQuestion("How many hours per day will the pet be alone?", None, SelectOneOption,
        Some(["0-2 hours", "2-4 hours", "4-8 hours", "8+ hours"])),
      TemplateQuestion("Who will be the primary caregiver?", Some("Please list all family members who will care for the pet"), ShortResponse,
        None),
      TemplateQuestion("Emergency Contact", Some("Name and phone number of someone to contact in case of emergency"), ShortResponse,
        None)
    ])

  const NewsletterSignupTemplate: FormTemplate := FormTemplate(
    "newsletter-signup", "Newsletter Signup", "Collect email addresses for your newsletter", "\U{1F4E7}", "Marketing", [
      TemplateQuestion("Email Address", Some("your.email@example.com"), ShortResponse,
        None),
      TemplateQuestion("First Name", Some("Enter your first name"), ShortResponse,
        None),
      TemplateQuestion("Last Name", Some("Enter your last name"), ShortResponse,
        None),
      TemplateQuestion("What topics are you interested in?", None, SelectMultipleOptions,
        Some(["Technology", "Business", "Health & Wellness", "Entertainment", "Education", "Travel", "Food & Cooking"])),
      TemplateQuestion("How often would you like to receive updates?", None, SelectOneOption,
        Some(["Daily", "Weekly", "Monthly", "Occasionally"])),
      TemplateQuestion("How did you hear about us?", None, SelectOneOption,
        Some(["Social Media", "Friend/Family", "Google Search", "Advertisement", "Website", "Other"]))
    ])

  const VolunteerApplicationTemplate: FormTemplate := FormTemplate(
    "volunteer-application", "Volunteer Application", "Recruit volunteers for your organization", "\U{1F91D}", "Non-Profit", [
      TemplateQuestion("Full Name", Some("Enter your full name"), ShortResponse,
        None),
      TemplateQuestion("Email Address", Some("your.email@example.com"), ShortResponse,
        None),
      TemplateQuestion("Phone Number", Some("+1 (555) 123-4567"), ShortResponse,
        None),
      TemplateQuestion("Date of Birth", Some("MM/DD/YYYY"), ShortResponse,
        None),
      TemplateQuestion("Emergency Contact", Some("Name and phone number"), ShortResponse,
        None),
      TemplateQuestion("What volunteer roles interest you?", None, SelectMultipleOptions,
        Some(["Event Planning", "Fundraising", "Administrative", "Teaching/Mentoring", "Community Outreach", "Environmental", "Animal Care"])),
      TemplateQuestion("How many hours per week can you volunteer?", None, SelectOneOption,
        Some(["1-5 hours", "5-10 hours", "10-20 hours", "20+ hours"])),
      TemplateQuestion("What days are you available?", None, SelectMultipleOptions,
        Some(["Monday", "Tuesday", "Wednesday", "Thursday", "Friday", "Saturday", "Sunday"])),
      TemplateQuestion("Do you have any special skills or experience?", Some("Please describe any relevant skills, certifications, or experience..."), ShortResponse,
        None),
      TemplateQuestion("Why do you want to volunteer with us?", Some("Tell us about your motivation..."), ShortResponse,
        None)
    ])

  const MembershipApplicationTemplate: FormTemplate := FormTemplate(
    "membership-application", "Membership Application", "Application form for organization membership", "\U{1F3DB}\U{FE0F}", "Business", [
      TemplateQuestion("Full Name", Some("Enter your full name"), ShortResponse,
        None),
      TemplateQuestion("Email Address", Some("your.email@example.com"), ShortResponse,
        None),
      TemplateQuestion("Phone Number", Some("+1 (555) 123-4567"), ShortResponse,
        None),
      TemplateQuestion("Organization/Company", Some("Your organization name"), ShortResponse,
        None),
      TemplateQuestion("Job Title", Some("Your current job title"), ShortResponse,
        None),
      TemplateQuestion("Industry", None, SelectOneOption,
        Some(["Technology", "Healthcare", "Finance", "Education", "Manufacturing", "Retail", "Consulting", "Other"])),
      TemplateQuestion("Membership Type", None, SelectOneOption,
        Some(["Individual", "Corporate", "Student", "Non-Profit", "Lifetime"])),
      TemplateQuestion("How did you hear about our organization?", None, SelectOneOption,
        Some(["Website", "Social Media", "Email", "Colleague", "Event", "Advertisement", "Other"])),
      TemplateQuestion("What are your primary interests in joining?", None, SelectMultipleOptions,
        Some(["Networking", "Professional Development", "Industry Insights", "Community Involvement", "Leadership Opportunities"])),
      TemplateQuestion("Special requests or comments", Some("Any additional information you\'d like to share..."), ShortResponse,
        None)
    ])

  const WorkshopRegistrationTemplate: FormTemplate := FormTemplate(
    "workshop-registration", "Workshop Registration", "Register participants for workshops", "\U{1F393}", "Education", [
      TemplateQuestion("Full Name", Some("Enter your full name"), ShortResponse,
        None),
      TemplateQuestion("Email Address", Some("your.email@example.com"), ShortResponse,
        None),
      TemplateQuestion("Phone Number", Some("+1 (555) 123-4567"), ShortResponse,
        None),
      TemplateQuestion("Organization/Company", Some("Your organization name (optional)"), ShortResponse,
        None),
      TemplateQuestion("Job Title/Role", Some("Your current job title or role"), ShortResponse,
        None),
      TemplateQuestion("Experience Level", None, SelectOneOption,
        Some(["Beginner", "Intermediate", "Advanced", "Expert"])),
      TemplateQuestion("What are your learning objectives?", Some("What do you hope to achieve from this workshop?"), ShortResponse,
        None),
      TemplateQuestion("Do you have any special dietary requirements?", None, SelectOneOption,
        Some(["None", "Vegetarian", "Vegan", "Gluten-free", "Kosher", "Halal", "Other"])),
      TemplateQuestion("How did you hear about this workshop?", None, SelectOneOption,
        Some(["Email", "Website", "Social Media", "Colleague", "Advertisement", "Previous Attendee", "Other"])),
      TemplateQuestion("Questions or comments", Some("Any questions or special accommodations needed?"), ShortResponse,
        None)
    ])

  const BugReportTemplate: FormTemplate := FormTemplate(
    "bug-report", "Bug Report", "Collect bug reports from users", "\U{1F41B}", "Technical", [
      TemplateQuestion("Your Name", Some("Enter your name"), ShortResponse,
        None),
      TemplateQuestion("Email Address", Some("your.email@example.com"), ShortResponse,
        None),
      TemplateQuestion("Application/Website URL", Some("Where did you encounter the bug?"), ShortResponse,
        None),
      TemplateQuestion("Browser/Device Information", Some("e.g., Chrome 120.0, iPhone Safari, Windows 11"), ShortResponse,
        None),
      TemplateQuestion("Bug Severity", None, SelectOneOption,
        Some(["Critical - App unusable", "High - Major feature broken", "Medium - Feature impaired", "Low - Minor issue", "Cosmetic - Visual issue only"])),
      TemplateQuestion("Steps to Reproduce", Some("Please describe step-by-step how to reproduce the bug..."), ShortResponse,
        None),
      TemplateQuestion("Expected Behavior", Some("What should happen?"), ShortResponse,
        None),
      TemplateQuestion("Actual Behavior", Some("What actually happened?"), ShortResponse,
        None),
      TemplateQuestion("Screenshots or Additional Information", Some("Please provide any additional details, screenshots, or error messages..."), ShortResponse,
        None),
      TemplateQuestion("Can you reproduce this issue consistently?", None, SelectOneOption,
        Some(["Yes, every time", "Sometimes", "Only once", "Not sure"]))
    ])

  const PhotographyContestTemplate: FormTemplate := FormTemplate(
    "photography-contest", "Photography Contest Entry", "Collect entries for photography contests", "\U{1F4F8}", "Creative", [
      TemplateQuestion("Full Name", Some("Enter your full name"), ShortResponse,
        None),
      TemplateQuestion("Email Address", Some("your.email@example.com"), ShortResponse,
        None),
      TemplateQuestion("Phone Number", Some("+1 (555) 123-4567"), ShortResponse,
        None),
      TemplateQuestion("Photo Title", Some("Give your photo a creative title"), ShortResponse,
        None),
      TemplateQuestion("Photo Description", Some("Describe your photo and the story behind it..."), ShortResponse,
        None),
      TemplateQuestion("Category", None, SelectOneOption,
        Some(["Portrait", "Landscape", "Street Photography", "Nature", "Architecture", "Abstract", "Other"])),
      TemplateQuestion("Camera Equipment Used", Some("Camera model, lens, etc."), ShortResponse,
        None),
      TemplateQuestion("Location", Some("Where was this photo taken?"), ShortResponse,
        None),
      TemplateQuestion("Technical Details", Some("Aperture, shutter speed, ISO, etc."), ShortResponse,
        None),
      TemplateQuestion("Permission to Use", None, SelectOneOption,
        Some(["Yes, I grant permission to use this photo for promotional purposes", "No, this entry is for competition only"]))
    ])
}
