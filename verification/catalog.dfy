/** The static catalogue the palette offers (constants.tsx): eight forces
    factors, eight relations factors, and three informational facts. */
module Catalog {
  import opened Types
  import Pans

  function Entry(id: string, name: string, description: string, weight: int,
                 category: Category, icon: string, tooltip: string): Factor
  {
    Factor(id, name, description, weight, category, icon, tooltip, None)
  }

  /** Production-forces factors (the left palette). */
  const ForcesFactors: seq<Factor> := [
    Entry("l-1", "Intern Logic", "Cơ bản, mới bắt đầu", 5, LLSX, "🐣", "Sức lao động sơ khai."),
    Entry("l-2", "Senior Architect", "Thiết kế hệ thống lớn", 40, LLSX, "🏗️", "LLSX trình độ cao."),
    Entry("l-3", "AI Mastery", "Tối ưu hóa bằng AI", 35, LLSX, "🧬", "Trí tuệ cách mạng."),
    Entry("l-4", "Cloud Expert", "AWS/Azure/GCP", 25, LLSX, "☁️", "Công cụ số hiện đại."),
    Entry("l-5", "Nhiệt huyết FPT", "Tinh thần \"FPT-er\"", 15, LLSX, "🔥", "Yếu tố con người quyết định."),
    Entry("l-6", "IELTS 7.5+", "Năng lực hội nhập", 20, LLSX, "🌍", "Mở rộng phạm vi LLSX."),
    Entry("l-7", "Java/C# Hard-core", "Kỹ năng cốt lõi", 30, LLSX, "💻", "Công cụ lao động kỹ thuật."),
    Entry("l-8", "Tiếng Nhật N2", "Thị trường Nhật Bản", 18, LLSX, "🗾", "Kỹ năng chuyên biệt.")
  ]

  /** Production-relations factors (the right palette). */
  const RelationsFactors: seq<Factor> := [
    Entry("q-1", "Lương 5 Triệu", "Phân phối lạc hậu", 5, QHSX, "🍜", "Kìm hãm con người."),
    Entry("q-2", "Lương Senior USD", "Đãi ngộ xứng tầm", 45, QHSX, "💰", "Phân phối hiện đại."),
    Entry("q-3", "Micro-management", "Quản lý gò bó", -15, QHSX, "👁️", "Quan hệ quản lý lỗi thời."),
    Entry("q-4", "Quy trình Agile", "Linh hoạt, tự chủ", 25, QHSX, "🌀", "Hình thức tổ chức tiến bộ."),
    Entry("q-5", "Thưởng Performance", "Khuyến khích nỗ lực", 20, QHSX, "🏆", "Quan hệ phân phối động lực."),
    Entry("q-6", "Career Path", "Lộ trình thăng tiến", 30, QHSX, "🚀", "Định hướng phát triển."),
    Entry("q-7", "Văn hóa Creative", "Tự do sáng tạo", 22, QHSX, "🎨", "Môi trường lý tưởng."),
    Entry("q-8", "OKR Framework", "Quản trị theo mục tiêu", 15, QHSX, "🎯", "Tổ chức quản lý chuẩn quốc tế.")
  ]

  /** Informational facts shown beside the scale. */
  const RealFacts: seq<Fact> := [
    Fact(1, "LLSX quyết định QHSX. Khi LLSX thay đổi, QHSX sớm muộn cũng phải thay đổi theo.",
         "Nguyên lý Triết học"),
    Fact(2, "Nếu QHSX 'vượt trước' trình độ LLSX quá xa, nó sẽ dẫn đến bệnh hình thức và lãng phí.",
         "Kinh nghiệm thực tiễn"),
    Fact(3, "Mâu thuẫn giữa LLSX và QHSX là động lực của mọi cuộc cách mạng xã hội.",
         "Học thuyết Mác-Lênin")
  ]

  /** Every forces entry is accepted on the left pan and refused on the right. */
  lemma ForcesBelongLeft()
    ensures |ForcesFactors| == 8
    ensures forall f :: f in ForcesFactors ==>
      f.category == LLSX && Pans.Accepts(Left, f) && !Pans.Accepts(Right, f)
  {
  }

  /** Every relations entry is accepted on the right pan and refused on the left. */
  lemma RelationsBelongRight()
    ensures |RelationsFactors| == 8
    ensures forall f :: f in RelationsFactors ==>
      f.category == QHSX && Pans.Accepts(Right, f) && !Pans.Accepts(Left, f)
  {
  }

  /** The sixteen catalogue ids are pairwise distinct. */
  lemma IdsDistinct()
    ensures var all := ForcesFactors + RelationsFactors;
      forall i, j :: 0 <= i < j < |all| ==> all[i].id != all[j].id
  {
  }

  /** All forces weigh positively; among relations only q-3 does not,
      and it weighs -15. */
  lemma WeightSigns()
    ensures forall f :: f in ForcesFactors ==> f.weight > 0
    ensures forall i :: 0 <= i < |RelationsFactors| && i != 2 ==> RelationsFactors[i].weight > 0
    ensures RelationsFactors[2].id == "q-3" && RelationsFactors[2].weight == -15
  {
  }

  /** Three facts, numbered 1 to 3 in order. */
  lemma FactIds()
    ensures |RealFacts| == 3
    ensures forall i :: 0 <= i < |RealFacts| ==> RealFacts[i].id == i + 1
  {
  }
}
